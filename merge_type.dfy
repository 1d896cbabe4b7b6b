/** `MergeType`: how a message output combines its own data with an affiliate's. */
module MergeTypes {
  import opened Common
  import opened JavaLang

  datatype MergeType = NONE | DIFFERENCE | REPLACE | REPLACE_OR_ADD

  /** `getId()`: the numeric id each constant is declared with. */
  function GetId(m: MergeType): int
  {
    match m
    case NONE => -1
    case DIFFERENCE => 0
    case REPLACE => 1
    case REPLACE_OR_ADD => 2
  }

  /** Ids tell the constants apart and run from -1 to 2 in declaration order. */
  lemma GetIdInjective(a: MergeType, b: MergeType)
    ensures GetId(a) == GetId(b) ==> a == b
    ensures -1 <= GetId(a) <= 2
  {
  }

  /** `name()`: the constant's own identifier. */
  function Name(m: MergeType): string
  {
    match m
    case NONE => "NONE"
    case DIFFERENCE => "DIFFERENCE"
    case REPLACE => "REPLACE"
    case REPLACE_OR_ADD => "REPLACE_OR_ADD"
  }

  /**
   * `fromName`: the lower-cased name picks a constant from a short list of
   * spellings; anything else (including "none") throws
   * `IllegalArgumentException`.
   */
  function FromName(name: string): (r: Result<MergeType>)
    ensures r.Success? ==> r.value != NONE
    ensures r == Success(DIFFERENCE) <==> Lower(name) in {"difference", "diff", "d"}
    ensures r == Success(REPLACE) <==> Lower(name) in {"replace", "r"}
    ensures r == Success(REPLACE_OR_ADD) <==> Lower(name) in {"add", "a"}
    ensures r.Failure? ==> r.error == "Unknown merge type: " + name
  {
    match Lower(name)
    case "difference" => Success(DIFFERENCE)
    case "diff" => Success(DIFFERENCE)
    case "d" => Success(DIFFERENCE)
    case "replace" => Success(REPLACE)
    case "r" => Success(REPLACE)
    case "add" => Success(REPLACE_OR_ADD)
    case "a" => Success(REPLACE_OR_ADD)
    case _ => Failure("Unknown merge type: " + name)
  }

  /** Names that differ only in case select the same constant. */
  lemma FromNameIgnoresCase(a: string, b: string)
    requires Lower(a) == Lower(b)
    ensures FromName(a).Success? <==> FromName(b).Success?
    ensures FromName(a).Success? ==> FromName(a) == FromName(b)
  {
  }

  /**
   * `fromName(m.name())` gives `m` back for DIFFERENCE and REPLACE only:
   * "none" and "replace_or_add" are not among the accepted spellings.
   */
  lemma NameRoundTrip(m: MergeType)
    ensures FromName(Name(m)).Success? <==> m == DIFFERENCE || m == REPLACE
    ensures FromName(Name(m)).Success? ==> FromName(Name(m)).value == m
  {
    match m
    case NONE => NoneRefused();
    case DIFFERENCE =>
      var lowered := Lower(Name(m));
      assert lowered == "difference";
    case REPLACE =>
      var lowered := Lower(Name(m));
      assert lowered == "replace";
    case REPLACE_OR_ADD => ReplaceOrAddRefused();
  }

  lemma NoneRefused()
    ensures FromName(Name(NONE)).Failure?
  {
    FourLettersRefused(Name(NONE));
  }

  lemma ReplaceOrAddRefused()
    ensures FromName(Name(REPLACE_OR_ADD)).Failure?
  {
    LongNameRefused(Name(REPLACE_OR_ADD));
  }

  /** Of the four-letter spellings only "diff" is accepted. */
  lemma FourLettersRefused(name: string)
    requires |name| == 4 && LowerChar(name[0]) != 'd'
    ensures FromName(name).Failure?
  {
    assert Lower(name)[0] != "diff"[0];
  }

  /** No accepted spelling is longer than ten letters. */
  lemma LongNameRefused(name: string)
    requires |name| > 10
    ensures FromName(name).Failure?
  {
  }
}
