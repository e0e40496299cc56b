/** The `str_to_bool` validator: a string to a boolean, ignoring letter case. */
module Validation {
  import opened Wrappers
  import opened Ascii

  /** Spellings accepted as false, in lower case. */
  const FalseWords: set<string> := {"false", "f", "0", "no", "n"}

  /** Spellings accepted as true, in lower case. */
  const TrueWords: set<string> := {"true", "t", "1", "yes", "y"}

  /** The `ValueError` raised for any other input; it carries the rejected input. */
  datatype ValueError = NotABoolean(value: string)

  /** The error's text, as the exception formats it. */
  function Message(e: ValueError): (m: string)
    ensures |m| > |e.value| && m[..|e.value|] == e.value
    ensures m[|e.value|..] == " is not a valid boolean value"
  {
    e.value + " is not a valid boolean value"
  }

  /** Maps the lower-cased input to `false` or `true`, or rejects it. */
  function StrToBool(value: string): (r: Result<bool, ValueError>)
    ensures r == Ok(false) <==> Lower(value) in FalseWords
    ensures r == Ok(true) <==> Lower(value) in TrueWords
    ensures r.Err? <==> Lower(value) !in FalseWords && Lower(value) !in TrueWords
    ensures r.Err? ==> r.error == NotABoolean(value)
  {
    var v := Lower(value);
    if v in FalseWords then Ok(false)
    else if v in TrueWords then Ok(true)
    else Err(NotABoolean(value))
  }

  /** No spelling is accepted as both false and true. */
  lemma AcceptedSetsDisjoint()
    ensures FalseWords * TrueWords == {}
  {
  }

  /** Every accepted spelling is already in lower case. */
  lemma AcceptedWordsLowercase(w: string)
    requires w in FalseWords || w in TrueWords
    ensures IsLowercase(w)
  {
  }

  /** Inputs that differ only in letter case get the same outcome: the same boolean, or both an error. */
  lemma StrToBoolCaseInsensitive(a: string, b: string)
    requires SameUpToCase(a, b)
    ensures StrToBool(a).Ok? <==> StrToBool(b).Ok?
    ensures StrToBool(a).Ok? ==> StrToBool(a).value == StrToBool(b).value
  {
    SameUpToCaseIffSameLower(a, b);
  }

  /** `false` is returned exactly for the spellings of false in any letter case. */
  lemma {:induction false} StrToBoolFalseExactly(s: string)
    ensures StrToBool(s) == Ok(false) <==> exists w :: w in FalseWords && SameUpToCase(s, w)
  {
    if StrToBool(s) == Ok(false) {
      SameUpToCaseAsLower(s);
      assert Lower(s) in FalseWords && SameUpToCase(s, Lower(s));
    }
    if w :| w in FalseWords && SameUpToCase(s, w) {
      AcceptedWordsLowercase(w);
      LowerOfLowercase(w);
      SameUpToCaseIffSameLower(s, w);
    }
  }

  /** `true` is returned exactly for the spellings of true in any letter case. */
  lemma {:induction false} StrToBoolTrueExactly(s: string)
    ensures StrToBool(s) == Ok(true) <==> exists w :: w in TrueWords && SameUpToCase(s, w)
  {
    if StrToBool(s) == Ok(true) {
      SameUpToCaseAsLower(s);
      assert Lower(s) in TrueWords && SameUpToCase(s, Lower(s));
    }
    if w :| w in TrueWords && SameUpToCase(s, w) {
      AcceptedWordsLowercase(w);
      LowerOfLowercase(w);
      SameUpToCaseIffSameLower(s, w);
    }
  }

  /** Everything that is no accepted spelling in any letter case is rejected, never a boolean. */
  lemma StrToBoolRejectsTheRest(s: string)
    requires forall w :: w in FalseWords || w in TrueWords ==> !SameUpToCase(s, w)
    ensures StrToBool(s) == Err(NotABoolean(s))
  {
  }

  /** Upper- and mixed-case spellings are accepted. */
  lemma StrToBoolAcceptsMixedCase()
    ensures StrToBool("Yes") == Ok(true)
    ensures StrToBool("FALSE") == Ok(false)
  {
    assert Lower("Yes") == "yes" by {
      assert Lower("Yes")[0] == 'y';
    }
    assert Lower("FALSE") == "false" by {
      assert Lower("FALSE")[0] == 'f' && Lower("FALSE")[1] == 'a' && Lower("FALSE")[2] == 'l';
      assert Lower("FALSE")[3] == 's' && Lower("FALSE")[4] == 'e';
    }
  }

  /** The empty string is rejected. */
  lemma StrToBoolRejectsEmpty()
    ensures StrToBool("") == Err(NotABoolean(""))
  {
  }

  /** The error message names the rejected input. */
  lemma MessageExample()
    ensures Message(NotABoolean("maybe")) == "maybe is not a valid boolean value"
  {
  }

  /** An unknown word is rejected. */
  lemma StrToBoolRejectsUnknownWord()
    ensures StrToBool("maybe") == Err(NotABoolean("maybe"))
  {
  }
}
