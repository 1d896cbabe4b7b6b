/**
 * Typed message payloads: `MessageDataOutput` keeps six string-keyed
 * namespaces (serializable objects, text, booleans, numbers, `char[]` and
 * `byte[]`) and, when compiled, first merges an affiliate output into its
 * own namespaces; `MessageDataInput` is a read-only view over an output.
 */
module Message {
  import opened Common
  import opened JavaIo
  import opened MergeTypes

  /** `DataType`: the six namespaces, in the order `DataType.values()` lists them. */
  datatype DataType = SERIALIZABLE | SEQUENCE | BOOLEAN | NUMBER | CHARACTER | BYTE

  const DataTypes: seq<DataType> := [SERIALIZABLE, SEQUENCE, BOOLEAN, NUMBER, CHARACTER, BYTE]

  /**
   * A value passed to `unsafeWrite` or held by the serializable namespace:
   * a String, a Boolean, a Number, a `char[]`, a `byte[]`, or some other
   * serializable object told apart by an identity.
   */
  datatype JObject =
    | JString(s: string)
    | JBoolean(b: bool)
    | JNumber(n: int)
    | JChars(cs: seq<Unit>)
    | JBytes(bs: seq<byte>)
    | JOther(id: nat)

  /** The contents of the six namespace maps of an output. */
  datatype Payload = Payload(
    serials: map<string, JObject>,
    sequences: map<string, string>,
    booleans: map<string, bool>,
    numbers: map<string, int>,
    characters: map<string, seq<Unit>>,
    bytes: map<string, seq<byte>>)
  {
    /** `get(key, type)`: the value under `key` in that namespace, if any. */
    function Get(key: string, t: DataType): Option<JObject>
    {
      match t
      case SERIALIZABLE => if key in serials then Some(serials[key]) else None
      case SEQUENCE => if key in sequences then Some(JString(sequences[key])) else None
      case BOOLEAN => if key in booleans then Some(JBoolean(booleans[key])) else None
      case NUMBER => if key in numbers then Some(JNumber(numbers[key])) else None
      case CHARACTER => if key in characters then Some(JChars(characters[key])) else None
      case BYTE => if key in bytes then Some(JBytes(bytes[key])) else None
    }

    /** `getKeys(type)`: exactly the keys `get` finds something under. */
    function Keys(t: DataType): (ks: set<string>)
      ensures forall k :: k in ks <==> Get(k, t).Some?
    {
      match t
      case SERIALIZABLE => serials.Keys
      case SEQUENCE => sequences.Keys
      case BOOLEAN => booleans.Keys
      case NUMBER => numbers.Keys
      case CHARACTER => characters.Keys
      case BYTE => bytes.Keys
    }

    /** `unsafeWrite(key, v, type)`: stores v in that namespace, and nothing at all when v is not of its kind. */
    function Put(key: string, v: JObject, t: DataType): Payload
    {
      match t
      case SERIALIZABLE => this.(serials := serials[key := v])
      case SEQUENCE => if v.JString? then this.(sequences := sequences[key := v.s]) else this
      case BOOLEAN => if v.JBoolean? then this.(booleans := booleans[key := v.b]) else this
      case NUMBER => if v.JNumber? then this.(numbers := numbers[key := v.n]) else this
      case CHARACTER => if v.JChars? then this.(characters := characters[key := v.cs]) else this
      case BYTE => if v.JBytes? then this.(bytes := bytes[key := v.bs]) else this
    }

    /** `remove(key, type)`; the BOOLEAN case falls through and also removes the key from NUMBER. */
    function Remove(key: string, t: DataType): Payload
    {
      match t
      case SERIALIZABLE => this.(serials := serials - {key})
      case SEQUENCE => this.(sequences := sequences - {key})
      case BOOLEAN => this.(booleans := booleans - {key}, numbers := numbers - {key})
      case NUMBER => this.(numbers := numbers - {key})
      case CHARACTER => this.(characters := characters - {key})
      case BYTE => this.(bytes := bytes - {key})
    }

    /** `getSerialized`. */
    function GetSerialized(key: string): Option<JObject>
    {
      Get(key, SERIALIZABLE)
    }

    /** `getSequence`, a text value. */
    function GetSequence(key: string): Option<string>
    {
      if key in sequences then Some(sequences[key]) else None
    }

    /** `getString`: the text value if there is one, else the serializable value when it is a String. */
    function GetString(key: string): Option<string>
    {
      match GetSequence(key)
      case Some(text) => Some(text)
      case None =>
        match GetSerialized(key)
        case Some(JString(s)) => Some(s)
        case _ => None
    }

    /** `getBoolean`: `Boolean.TRUE.equals(get(key, BOOLEAN))`. */
    function GetBoolean(key: string): bool
    {
      Get(key, BOOLEAN) == Some(JBoolean(true))
    }

    function GetNumber(key: string): Option<int>
    {
      if key in numbers then Some(numbers[key]) else None
    }

    function GetCharacters(key: string): Option<seq<Unit>>
    {
      if key in characters then Some(characters[key]) else None
    }

    function GetBytes(key: string): Option<seq<byte>>
    {
      if key in bytes then Some(bytes[key]) else None
    }
  }

  /** A new output: all six namespaces empty. */
  const Empty: Payload := Payload(map[], map[], map[], map[], map[], map[])

  /** The cast `unsafeWrite` performs for the namespace succeeds on v. */
  predicate Fits(v: JObject, t: DataType)
  {
    match t
    case SERIALIZABLE => true
    case SEQUENCE => v.JString?
    case BOOLEAN => v.JBoolean?
    case NUMBER => v.JNumber?
    case CHARACTER => v.JChars?
    case BYTE => v.JBytes?
  }

  /** After a write, the written entry reads back and every other (namespace, key) entry is as before. */
  lemma GetAfterPut(p: Payload, key: string, v: JObject, t: DataType, key2: string, t2: DataType)
    ensures p.Put(key, v, t).Get(key2, t2) ==
            if Fits(v, t) && key2 == key && t2 == t then Some(v) else p.Get(key2, t2)
  {
  }

  /** Writing the same (namespace, key) twice keeps only the last value. */
  lemma LastWriteWins(p: Payload, key: string, v1: JObject, v2: JObject, t: DataType)
    requires Fits(v1, t) && Fits(v2, t)
    ensures p.Put(key, v1, t).Put(key, v2, t) == p.Put(key, v2, t)
  {
    match t
    case SERIALIZABLE => UpdateTwice(p.serials, key, v1, v2);
    case SEQUENCE => UpdateTwice(p.sequences, key, v1.s, v2.s);
    case BOOLEAN => UpdateTwice(p.booleans, key, v1.b, v2.b);
    case NUMBER => UpdateTwice(p.numbers, key, v1.n, v2.n);
    case CHARACTER => UpdateTwice(p.characters, key, v1.cs, v2.cs);
    case BYTE => UpdateTwice(p.bytes, key, v1.bs, v2.bs);
  }

  /** A map updated twice at one key holds the second value there. */
  lemma UpdateTwice<V>(m: map<string, V>, key: string, a: V, b: V)
    ensures m[key := a][key := b] == m[key := b]
  {
  }

  /** After a remove, the key is gone from its namespace (and from NUMBER for BOOLEAN), and nothing else changes. */
  lemma GetAfterRemove(p: Payload, key: string, t: DataType, key2: string, t2: DataType)
    ensures p.Remove(key, t).Get(key2, t2) ==
            if key2 == key && (t2 == t || (t == BOOLEAN && t2 == NUMBER)) then None else p.Get(key2, t2)
  {
  }

  /** `getString`'s precedence: text first, then a serializable String, otherwise nothing. */
  lemma GetStringSpec(p: Payload, key: string)
    ensures key in p.sequences ==> p.GetString(key) == Some(p.sequences[key])
    ensures key !in p.sequences ==>
      (p.GetString(key).Some? <==> key in p.serials && p.serials[key].JString?)
    ensures key !in p.sequences && key in p.serials && p.serials[key].JString? ==>
      p.GetString(key) == Some(p.serials[key].s)
  {
  }

  /** A key written into one namespace is invisible to the getters of the others. */
  lemma WriteInvisibleElsewhere(p: Payload, key: string, v: JObject, t: DataType, t2: DataType)
    requires t2 != t
    ensures p.Put(key, v, t).Get(key, t2) == p.Get(key, t2)
  {
  }

  // ---------------------------------------------------------------------
  // Merging an affiliate

  /**
   * One namespace after the merge loop has handled the affiliate keys in
   * `done`: DIFFERENCE adds the affiliate's entries for keys missing
   * locally; REPLACE overwrites the local entries whose keys the affiliate
   * also has; any other mode leaves the namespace alone.
   */
  function MergeMapOn<V>(local: map<string, V>, aff: map<string, V>, mode: MergeType, done: set<string>): map<string, V>
  {
    match mode
    case DIFFERENCE => map k | k in local.Keys + (aff.Keys * done) :: if k in local then local[k] else aff[k]
    case REPLACE => map k | k in local :: if k in aff && k in done then aff[k] else local[k]
    case _ => local
  }

  /** One namespace after the whole merge. */
  function MergeMap<V>(local: map<string, V>, aff: map<string, V>, mode: MergeType): map<string, V>
  {
    MergeMapOn(local, aff, mode, aff.Keys)
  }

  /** All six namespaces after the merge. */
  function Merged(local: Payload, aff: Payload, mode: MergeType): Payload
  {
    Payload(
      MergeMap(local.serials, aff.serials, mode),
      MergeMap(local.sequences, aff.sequences, mode),
      MergeMap(local.booleans, aff.booleans, mode),
      MergeMap(local.numbers, aff.numbers, mode),
      MergeMap(local.characters, aff.characters, mode),
      MergeMap(local.bytes, aff.bytes, mode))
  }

  /** DIFFERENCE: a local entry is never overwritten, and every entry missing locally comes from the affiliate. */
  lemma DifferenceLaw(local: Payload, aff: Payload, key: string, t: DataType)
    ensures Merged(local, aff, DIFFERENCE).Get(key, t) ==
            if local.Get(key, t).Some? then local.Get(key, t) else aff.Get(key, t)
  {
  }

  /** REPLACE: only keys present on both sides change, to the affiliate's value; no key is added. */
  lemma ReplaceLaw(local: Payload, aff: Payload, key: string, t: DataType)
    ensures Merged(local, aff, REPLACE).Get(key, t) ==
            if local.Get(key, t).Some? && aff.Get(key, t).Some? then aff.Get(key, t) else local.Get(key, t)
    ensures Merged(local, aff, REPLACE).Keys(t) == local.Keys(t)
  {
    ReplaceGet(local, aff, key, t);
    match t
    case SERIALIZABLE => ReplaceKeys(local.serials, aff.serials);
    case SEQUENCE => ReplaceKeys(local.sequences, aff.sequences);
    case BOOLEAN => ReplaceKeys(local.booleans, aff.booleans);
    case NUMBER => ReplaceKeys(local.numbers, aff.numbers);
    case CHARACTER => ReplaceKeys(local.characters, aff.characters);
    case BYTE => ReplaceKeys(local.bytes, aff.bytes);
  }

  /** REPLACE adds no key to a map and removes none. */
  lemma ReplaceKeys<V>(local: map<string, V>, aff: map<string, V>)
    ensures MergeMap(local, aff, REPLACE).Keys == local.Keys
  {
  }

  /** REPLACE on one key of one namespace. */
  lemma ReplaceGet(local: Payload, aff: Payload, key: string, t: DataType)
    ensures Merged(local, aff, REPLACE).Get(key, t) ==
            if local.Get(key, t).Some? && aff.Get(key, t).Some? then aff.Get(key, t) else local.Get(key, t)
  {
    match t
    case SERIALIZABLE => ReplaceMap(local.serials, aff.serials, key);
    case SEQUENCE => ReplaceMap(local.sequences, aff.sequences, key);
    case BOOLEAN => ReplaceMap(local.booleans, aff.booleans, key);
    case NUMBER => ReplaceMap(local.numbers, aff.numbers, key);
    case CHARACTER => ReplaceMap(local.characters, aff.characters, key);
    case BYTE => ReplaceMap(local.bytes, aff.bytes, key);
  }

  /** REPLACE on one key of one map: present exactly where it was, with the affiliate's value where both have it. */
  lemma ReplaceMap<V>(local: map<string, V>, aff: map<string, V>, key: string)
    ensures key in MergeMap(local, aff, REPLACE) <==> key in local
    ensures key in local ==> MergeMap(local, aff, REPLACE)[key] == if key in aff then aff[key] else local[key]
  {
  }

  /** NONE and REPLACE_OR_ADD (the switch's default branch) change nothing. */
  lemma OtherModesKeep(local: Payload, aff: Payload, mode: MergeType)
    requires mode != DIFFERENCE && mode != REPLACE
    ensures Merged(local, aff, mode) == local
  {
  }

  /** Merging again against the same affiliate changes nothing further. */
  lemma MergeIdempotent(local: Payload, aff: Payload, mode: MergeType)
    ensures Merged(Merged(local, aff, mode), aff, mode) == Merged(local, aff, mode)
  {
    var once := Merged(local, aff, mode);
    forall t: DataType, key: string
      ensures Merged(once, aff, mode).Get(key, t) == once.Get(key, t)
    {
      if mode == DIFFERENCE {
        DifferenceLaw(once, aff, key, t);
        DifferenceLaw(local, aff, key, t);
      } else if mode == REPLACE {
        ReplaceLaw(once, aff, key, t);
        ReplaceLaw(local, aff, key, t);
      } else {
        OtherModesKeep(once, aff, mode);
      }
    }
    PayloadExtensional(Merged(once, aff, mode), once);
  }

  /** Two payloads that agree on every lookup are equal. */
  lemma PayloadExtensional(p: Payload, q: Payload)
    requires forall t: DataType, key: string :: p.Get(key, t) == q.Get(key, t)
    ensures p == q
  {
    forall k | true
      ensures (k in p.serials <==> k in q.serials) && (k in p.serials ==> p.serials[k] == q.serials[k])
    {
      assert p.Get(k, SERIALIZABLE) == q.Get(k, SERIALIZABLE);
    }
    forall k | true
      ensures (k in p.sequences <==> k in q.sequences) && (k in p.sequences ==> p.sequences[k] == q.sequences[k])
    {
      assert p.Get(k, SEQUENCE) == q.Get(k, SEQUENCE);
    }
    forall k | true
      ensures (k in p.booleans <==> k in q.booleans) && (k in p.booleans ==> p.booleans[k] == q.booleans[k])
    {
      assert p.Get(k, BOOLEAN) == q.Get(k, BOOLEAN);
    }
    forall k | true
      ensures (k in p.numbers <==> k in q.numbers) && (k in p.numbers ==> p.numbers[k] == q.numbers[k])
    {
      assert p.Get(k, NUMBER) == q.Get(k, NUMBER);
    }
    forall k | true
      ensures (k in p.characters <==> k in q.characters) && (k in p.characters ==> p.characters[k] == q.characters[k])
    {
      assert p.Get(k, CHARACTER) == q.Get(k, CHARACTER);
    }
    forall k | true
      ensures (k in p.bytes <==> k in q.bytes) && (k in p.bytes ==> p.bytes[k] == q.bytes[k])
    {
      assert p.Get(k, BYTE) == q.Get(k, BYTE);
    }
  }

  /** An output merged with itself stays as it is, whatever the mode. */
  lemma SelfMergeKeeps(p: Payload, mode: MergeType)
    ensures Merged(p, p, mode) == p
  {
    forall t: DataType, key: string
      ensures Merged(p, p, mode).Get(key, t) == p.Get(key, t)
    {
      if mode == DIFFERENCE {
        DifferenceLaw(p, p, key, t);
      } else if mode == REPLACE {
        ReplaceLaw(p, p, key, t);
      } else {
        OtherModesKeep(p, p, mode);
      }
    }
    PayloadExtensional(Merged(p, p, mode), p);
  }

  /** The merge applied to the namespace of one type only. */
  function MergeKind(p: Payload, src: Payload, mode: MergeType, t: DataType): Payload
  {
    match t
    case SERIALIZABLE => p.(serials := MergeMap(p.serials, src.serials, mode))
    case SEQUENCE => p.(sequences := MergeMap(p.sequences, src.sequences, mode))
    case BOOLEAN => p.(booleans := MergeMap(p.booleans, src.booleans, mode))
    case NUMBER => p.(numbers := MergeMap(p.numbers, src.numbers, mode))
    case CHARACTER => p.(characters := MergeMap(p.characters, src.characters, mode))
    case BYTE => p.(bytes := MergeMap(p.bytes, src.bytes, mode))
  }

  /** The merge applied to the namespaces of `ts`, in that order. */
  function MergeKinds(p: Payload, src: Payload, mode: MergeType, ts: seq<DataType>): Payload
  {
    if ts == [] then p else MergeKind(MergeKinds(p, src, mode, ts[..|ts| - 1]), src, mode, ts[|ts| - 1])
  }

  /** One more type of `ts`: its namespace is merged after those before it. */
  lemma MergeKindsStep(p: Payload, src: Payload, mode: MergeType, ts: seq<DataType>, i: nat)
    requires i < |ts|
    ensures MergeKinds(p, src, mode, ts[..i + 1]) == MergeKind(MergeKinds(p, src, mode, ts[..i]), src, mode, ts[i])
  {
    var prefix := ts[..i + 1];
    assert prefix[..i] == ts[..i] && prefix[i] == ts[i];
  }

  /** Handling every type in `DataType.values()` order is the whole merge. */
  lemma MergeKindsAll(p: Payload, src: Payload, mode: MergeType)
    ensures MergeKinds(p, src, mode, DataTypes) == Merged(p, src, mode)
  {
    var t5 := [SERIALIZABLE, SEQUENCE, BOOLEAN, NUMBER, CHARACTER];
    var t4 := [SERIALIZABLE, SEQUENCE, BOOLEAN, NUMBER];
    var t3 := [SERIALIZABLE, SEQUENCE, BOOLEAN];
    var t2 := [SERIALIZABLE, SEQUENCE];
    var t1 := [SERIALIZABLE];
    assert DataTypes[..5] == t5 && t5[..4] == t4 && t4[..3] == t3 && t3[..2] == t2 && t2[..1] == t1 && t1[..0] == [];
    assert MergeKinds(p, src, mode, t1[..0]) == p;
    var m1 := MergeKinds(p, src, mode, t1);
    assert m1 == MergeKind(p, src, mode, SERIALIZABLE);
    var m2 := MergeKinds(p, src, mode, t2);
    assert m2 == MergeKind(m1, src, mode, SEQUENCE);
    var m3 := MergeKinds(p, src, mode, t3);
    assert m3 == MergeKind(m2, src, mode, BOOLEAN);
    var m4 := MergeKinds(p, src, mode, t4);
    assert m4 == MergeKind(m3, src, mode, NUMBER);
    var m5 := MergeKinds(p, src, mode, t5);
    assert m5 == MergeKind(m4, src, mode, CHARACTER);
    assert MergeKinds(p, src, mode, DataTypes) == MergeKind(m5, src, mode, BYTE);
  }

  /**
   * The loop over one namespace's affiliate keys: a key is written with the
   * affiliate's value when it is present locally (REPLACE) or absent
   * locally (DIFFERENCE).
   */
  method MergeInto<V>(local: map<string, V>, aff: map<string, V>, mode: MergeType) returns (r: map<string, V>)
    requires mode == REPLACE || mode == DIFFERENCE
    ensures r == MergeMap(local, aff, mode)
  {
    r := local;
    var keys := aff.Keys;
    while keys != {}
      invariant keys <= aff.Keys
      invariant r == MergeMapOn(local, aff, mode, aff.Keys - keys)
      decreases keys
    {
      var key :| key in keys;
      ghost var done := aff.Keys - keys;
      MergeOneKey(local, aff, mode, done, key);
      var present := key in r;
      if (mode == REPLACE && present) || (mode == DIFFERENCE && !present) {
        r := r[key := aff[key]];
      }
      keys := keys - {key};
      assert aff.Keys - keys == done + {key};
    }
  }

  /** Handling one more affiliate key: it is taken exactly when the mode's test on the local map passes. */
  lemma MergeOneKey<V>(local: map<string, V>, aff: map<string, V>, mode: MergeType, done: set<string>, key: string)
    requires mode == REPLACE || mode == DIFFERENCE
    requires key in aff && key !in done
    ensures var r := MergeMapOn(local, aff, mode, done);
      (key in r <==> key in local) &&
      MergeMapOn(local, aff, mode, done + {key}) ==
        if (mode == REPLACE && key in r) || (mode == DIFFERENCE && key !in r) then r[key := aff[key]] else r
  {
    var r := MergeMapOn(local, aff, mode, done);
    var r' := MergeMapOn(local, aff, mode, done + {key});
    if mode == DIFFERENCE {
      if key !in local {
        assert r' == r[key := aff[key]];
      } else {
        assert r' == r;
      }
    } else {
      if key in local {
        assert r' == r[key := aff[key]];
      } else {
        assert r' == r;
      }
    }
  }

  /** `MessageDataOutput`: the six namespaces, plus the final merge type and affiliate (`MessageOutput`). */
  class MessageDataOutput {
    var serials: map<string, JObject>
    var sequences: map<string, string>
    var booleans: map<string, bool>
    var numbers: map<string, int>
    var characters: map<string, seq<Unit>>
    var bytes: map<string, seq<byte>>

    /** `merge()`: final, set by the constructor. */
    const mergeType: MergeType
    /** `affiliate()`: final, set by the constructor; null when there is none. */
    const affiliate: MessageDataOutput?

    /** The namespace contents. */
    function View(): Payload
      reads this
    {
      Payload(serials, sequences, booleans, numbers, characters, bytes)
    }

    /** `new MessageDataOutput()`: merge type NONE and no affiliate. */
    constructor ()
      ensures View() == Empty
      ensures mergeType == NONE && affiliate == null
    {
      serials, sequences, booleans := map[], map[], map[];
      numbers, characters, bytes := map[], map[], map[];
      mergeType := NONE;
      affiliate := null;
    }

    /** `new MessageDataOutput(affiliate, type)`: both kept exactly as given, a null affiliate included. */
    constructor WithAffiliate(affiliate: MessageDataOutput?, mergeType: MergeType)
      ensures View() == Empty
      ensures this.mergeType == mergeType && this.affiliate == affiliate
    {
      serials, sequences, booleans := map[], map[], map[];
      numbers, characters, bytes := map[], map[], map[];
      this.mergeType := mergeType;
      this.affiliate := affiliate;
    }

    /**
     * `new MessageDataOutput(compiled, type)`: the affiliate is the output
     * decoded from the compiled bytes (its contents are the `decoded`
     * parameter); the merge type is the one given.
     */
    constructor FromCompiled(decoded: Payload, mergeType: MergeType)
      ensures View() == Empty
      ensures this.mergeType == mergeType
      ensures affiliate != null && fresh(affiliate) && affiliate != this && affiliate.View() == decoded
    {
      var origin := new MessageDataOutput.Decoded(decoded);
      serials, sequences, booleans := map[], map[], map[];
      numbers, characters, bytes := map[], map[], map[];
      this.mergeType := mergeType;
      affiliate := origin;
    }

    /** An output as the deserializer rebuilds it, holding the namespace contents `p`. */
    constructor Decoded(p: Payload)
      ensures View() == p
      ensures mergeType == NONE && affiliate == null
    {
      serials, sequences, booleans := p.serials, p.sequences, p.booleans;
      numbers, characters, bytes := p.numbers, p.characters, p.bytes;
      mergeType := NONE;
      affiliate := null;
    }

    method WriteSerializable(key: string, data: JObject)
      modifies this
      ensures View() == old(View()).Put(key, data, SERIALIZABLE)
    {
      serials := serials[key := data];
    }

    /** `write(key, CharSequence)`. */
    method WriteSequence(key: string, data: string)
      modifies this
      ensures View() == old(View()).Put(key, JString(data), SEQUENCE)
    {
      sequences := sequences[key := data];
    }

    /** `write(key, boolean)`. */
    method WriteBoolean(key: string, data: bool)
      modifies this
      ensures View() == old(View()).Put(key, JBoolean(data), BOOLEAN)
    {
      booleans := booleans[key := data];
    }

    /** `write(key, Number)`. */
    method WriteNumber(key: string, number: int)
      modifies this
      ensures View() == old(View()).Put(key, JNumber(number), NUMBER)
    {
      numbers := numbers[key := number];
    }

    /** `write(key, char...)`. */
    method WriteCharacters(key: string, chars: seq<Unit>)
      modifies this
      ensures View() == old(View()).Put(key, JChars(chars), CHARACTER)
    {
      characters := characters[key := chars];
    }

    /** `write(key, byte[])`. */
    method WriteBytes(key: string, data: seq<byte>)
      modifies this
      ensures View() == old(View()).Put(key, JBytes(data), BYTE)
    {
      bytes := bytes[key := data];
    }

    /** `unsafeWrite`: a value of the wrong kind fails the cast, which is swallowed. */
    method UnsafeWrite(key: string, data: JObject, t: DataType)
      modifies this
      ensures View() == old(View()).Put(key, data, t)
    {
      match t
      case SERIALIZABLE =>
        serials := serials[key := data];
      case SEQUENCE =>
        if data.JString? {
          sequences := sequences[key := data.s];
        }
      case BOOLEAN =>
        if data.JBoolean? {
          booleans := booleans[key := data.b];
        }
      case NUMBER =>
        if data.JNumber? {
          numbers := numbers[key := data.n];
        }
      case CHARACTER =>
        if data.JChars? {
          characters := characters[key := data.cs];
        }
      case BYTE =>
        if data.JBytes? {
          bytes := bytes[key := data.bs];
        }
    }

    /** `remove`; BOOLEAN has no `break` and falls into NUMBER. */
    method Remove(key: string, t: DataType)
      modifies this
      ensures View() == old(View()).Remove(key, t)
    {
      match t
      case SERIALIZABLE =>
        serials := serials - {key};
      case SEQUENCE =>
        sequences := sequences - {key};
      case BOOLEAN =>
        booleans := booleans - {key};
        numbers := numbers - {key};
      case NUMBER =>
        numbers := numbers - {key};
      case CHARACTER =>
        characters := characters - {key};
      case BYTE =>
        bytes := bytes - {key};
    }

    /** `getKeys(type)` (a snapshot of the key set). */
    function GetKeys(t: DataType): set<string>
      reads this
    {
      View().Keys(t)
    }

    /** `get(key, type)`. */
    function Get(key: string, t: DataType): Option<JObject>
      reads this
    {
      View().Get(key, t)
    }

    /** `contains`: `get` is non-null, which is membership in `getKeys`. */
    function Contains(key: string, t: DataType): (r: bool)
      reads this
      ensures r <==> key in GetKeys(t)
    {
      Get(key, t).Some?
    }

    /**
     * The merge step of `compile()`: with an affiliate, every type's
     * namespace is merged in `DataType.values()` order for REPLACE and
     * DIFFERENCE; NONE and every other mode do nothing.
     */
    method MergeAffiliate()
      modifies this
      ensures affiliate == null ==> View() == old(View())
      ensures affiliate != null ==> View() == Merged(old(View()), old(affiliate.View()), mergeType)
    {
      if affiliate != null {
        var source := affiliate.View();
        var merge := mergeType;
        match merge
        case REPLACE =>
          MergeAll(source, merge);
        case DIFFERENCE =>
          MergeAll(source, merge);
        case _ =>
          OtherModesKeep(View(), source, merge);
      }
    }

    /** The loop over `DataType.values()`, merging one namespace per type. */
    method MergeAll(source: Payload, mode: MergeType)
      requires mode == REPLACE || mode == DIFFERENCE
      modifies this
      ensures View() == Merged(old(View()), source, mode)
    {
      ghost var start := View();
      for i := 0 to |DataTypes|
        invariant View() == MergeKinds(start, source, mode, DataTypes[..i])
      {
        MergeKindsStep(start, source, mode, DataTypes, i);
        MergeNamespace(source, mode, DataTypes[i]);
      }
      assert DataTypes[..|DataTypes|] == DataTypes;
      MergeKindsAll(start, source, mode);
    }

    /** One pass of that loop: the namespace of type `t` takes the merge, the others stay. */
    method MergeNamespace(source: Payload, mode: MergeType, t: DataType)
      requires mode == REPLACE || mode == DIFFERENCE
      modifies this
      ensures View() == MergeKind(old(View()), source, mode, t)
    {
      match t
      case SERIALIZABLE =>
        serials := MergeInto(serials, source.serials, mode);
      case SEQUENCE =>
        sequences := MergeInto(sequences, source.sequences, mode);
      case BOOLEAN =>
        booleans := MergeInto(booleans, source.booleans, mode);
      case NUMBER =>
        numbers := MergeInto(numbers, source.numbers, mode);
      case CHARACTER =>
        characters := MergeInto(characters, source.characters, mode);
      case BYTE =>
        bytes := MergeInto(bytes, source.bytes, mode);
    }

    /**
     * `compile()`: merge, then serialize. The serialized form is
     * represented by the namespace contents it encodes.
     */
    method Compile() returns (compiled: Payload)
      modifies this
      ensures affiliate == null ==> View() == old(View())
      ensures affiliate != null ==> View() == Merged(old(View()), old(affiliate.View()), mergeType)
      ensures compiled == View()
    {
      MergeAffiliate();
      compiled := View();
    }
  }

  /** `MessageDataInput`: a read-only view; `output` is `MessageInput`'s field, `input` its own. */
  class MessageDataInput {
    const output: MessageDataOutput
    const input: MessageDataOutput

    /** `new MessageDataInput(out)`: both fields are that same instance. */
    constructor OfOutput(out: MessageDataOutput)
      ensures output == out && input == out
    {
      output := out;
      input := out;
    }

    /**
     * `new MessageDataInput(bytes)`: the superclass and the subclass each
     * decode the bytes on their own, giving two distinct outputs.
     */
    constructor OfBytes(decodedBySuper: Payload, decoded: Payload)
      ensures fresh(output) && fresh(input) && output != input
      ensures output.View() == decodedBySuper && input.View() == decoded
    {
      var o := new MessageDataOutput.Decoded(decodedBySuper);
      var i := new MessageDataOutput.Decoded(decoded);
      output := o;
      input := i;
    }

    /** `getOutput()`. */
    function GetOutput(): MessageDataOutput
    {
      output
    }

    function GetSerialized(key: string): (r: Option<JObject>)
      reads input
      ensures r.Some? <==> key in input.serials
      ensures r.Some? ==> r.value == input.serials[key]
    {
      input.View().GetSerialized(key)
    }

    function GetSequence(key: string): (r: Option<string>)
      reads input
      ensures r.Some? <==> key in input.sequences
      ensures r.Some? ==> r.value == input.sequences[key]
    {
      input.View().GetSequence(key)
    }

    /** `getString`: text first, else a serializable String, else null. */
    function GetString(key: string): (r: Option<string>)
      reads input
      ensures key in input.sequences ==> r == Some(input.sequences[key])
      ensures key !in input.sequences ==> (r.Some? <==> key in input.serials && input.serials[key].JString?)
      ensures r.Some? && key !in input.sequences ==> r.value == input.serials[key].s
    {
      GetStringSpec(input.View(), key);
      input.View().GetString(key)
    }

    /** `getBoolean`: true only for a stored true; absent or false give false. */
    function GetBoolean(key: string): (r: bool)
      reads input
      ensures r <==> key in input.booleans && input.booleans[key]
    {
      input.View().GetBoolean(key)
    }

    function GetNumber(key: string): (r: Option<int>)
      reads input
      ensures r.Some? <==> key in input.numbers
      ensures r.Some? ==> r.value == input.numbers[key]
    {
      input.View().GetNumber(key)
    }

    function GetCharacters(key: string): (r: Option<seq<Unit>>)
      reads input
      ensures r.Some? <==> key in input.characters
      ensures r.Some? ==> r.value == input.characters[key]
    {
      input.View().GetCharacters(key)
    }

    function GetBytes(key: string): (r: Option<seq<byte>>)
      reads input
      ensures r.Some? <==> key in input.bytes
      ensures r.Some? ==> r.value == input.bytes[key]
    {
      input.View().GetBytes(key)
    }
  }

  /** A view over an output sees text written to that output after the view was made. */
  method ViewSeesLaterWrites(key: string, text: string) returns (seen: Option<string>)
    ensures seen == Some(text)
  {
    var out := new MessageDataOutput();
    var view := new MessageDataInput.OfOutput(out);
    out.WriteSequence(key, text);
    seen := view.GetString(key);
  }
}
