/** Input validation (`validate_input`). */
module Utils {
  import opened Text

  /**
   * `validate_input`: the stripped text has at least `minLength` characters. The first
   * ensures is the documented characterization; the lemmas below draw its consequences.
   */
  function ValidateInput(text: string, minLength: int): (ok: bool)
    ensures ok <==> |Strip(text)| >= minLength
    ensures AllSpace(text) ==> (ok <==> minLength <= 0)
  {
    |Strip(text)| >= minLength
  }

  /** Surrounding whitespace never changes the verdict. */
  lemma SurroundingSpaceIrrelevant(w1: string, text: string, w2: string, minLength: int)
    requires AllSpace(w1) && AllSpace(w2)
    ensures ValidateInput(w1 + text + w2, minLength) == ValidateInput(text, minLength)
  {
    StripIgnoresSurroundingSpace(w1, text, w2);
  }

  /** Text that passes a length passes every smaller one. */
  lemma MonotoneInLength(text: string, m1: int, m2: int)
    requires m2 <= m1 && ValidateInput(text, m1)
    ensures ValidateInput(text, m2)
  {
  }

  /** A non-positive minimum accepts everything, blank text included. */
  lemma NonPositiveAcceptsAll(text: string, minLength: int)
    requires minLength <= 0
    ensures ValidateInput(text, minLength)
  {
  }

  /** The repository's cases: "" and "   " fail, ("a", 2) fails, ("hello", 3) passes. */
  lemma ValidateExamples(empty: string, blank: string, a: string, hello: string)
    requires empty == "" && blank == "   " && a == "a" && hello == "hello"
    ensures !ValidateInput(empty, 1) && !ValidateInput(blank, 1)
    ensures !ValidateInput(a, 2) && ValidateInput(hello, 3)
  {
    assert AllSpace(blank);
    assert |Strip(a)| <= 1;
    assert !IsSpace(hello[0]) && !IsSpace(hello[4]);
    assert TrimStart(hello) == hello;
    assert TrimEnd(hello) == hello;
  }
}
