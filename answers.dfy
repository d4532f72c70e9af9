/**
 * The answer check of the submit handler: the submission is trimmed and upper-cased, the
 * stored answer is only upper-cased, and the two must be equal.
 */
module Answers {
  import opened Strings

  /** `answer.trim().toUpperCase() === quest.answer.toUpperCase()`. */
  predicate AnswerMatches(submitted: string, stored: string) {
    Upper(Trim(submitted)) == Upper(stored)
  }

  /** Whitespace around the submission never changes the verdict. */
  lemma PaddingIgnored(w1: string, submitted: string, w2: string, stored: string)
    requires AllWhitespace(w1) && AllWhitespace(w2)
    ensures AnswerMatches(w1 + submitted + w2, stored) <==> AnswerMatches(submitted, stored)
  {
    TrimIgnoresPadding(w1, submitted, w2);
  }

  /** The case of either side never changes the verdict. */
  lemma CaseIgnored(submitted: string, stored: string)
    ensures AnswerMatches(Upper(submitted), stored) <==> AnswerMatches(submitted, stored)
    ensures AnswerMatches(submitted, Upper(stored)) <==> AnswerMatches(submitted, stored)
  {
    UpperTrimCommute(submitted);
    UpperTrimCommute(Upper(submitted));
    UpperIdempotent(Trim(submitted));
    UpperIdempotent(stored);
  }

  /**
   * The stored answer is not trimmed: a stored answer that begins or ends with whitespace
   * is matched by no submission at all, since an upper-cased trimmed string has no
   * whitespace at either end.
   */
  lemma PaddedStoredAnswerUnmatchable(submitted: string, stored: string)
    requires !Trimmed(stored)
    ensures !AnswerMatches(submitted, stored)
  {
    var t := Trim(submitted);
    assert Trimmed(Upper(t));
    assert !Trimmed(Upper(stored));
  }

  /** Submitting the stored answer itself is accepted exactly when it has no surrounding whitespace. */
  lemma StoredAnswerAcceptsItself(stored: string)
    ensures AnswerMatches(stored, stored) <==> Trimmed(stored)
  {
    if Trimmed(stored) {
      TrimOfTrimmed(stored);
    } else {
      PaddedStoredAnswerUnmatchable(stored, stored);
    }
  }

  /** For a stored answer without surrounding whitespace, the one-sided check agrees with
      normalising both sides alike (trim, then upper-case). */
  lemma AgreesWithSymmetricCheck(submitted: string, stored: string)
    requires Trimmed(stored)
    ensures AnswerMatches(submitted, stored) <==> Upper(Trim(submitted)) == Upper(Trim(stored))
  {
    TrimOfTrimmed(stored);
  }

  /** A string with no surrounding whitespace is left alone by `trim`. */
  lemma TrimOfTrimmed(s: string)
    requires Trimmed(s)
    ensures Trim(s) == s
  {
    assert [] + s + [] == s;
    TrimCharacterised([], s, []);
  }

  lemma UpperParis()
    ensures Upper("paris") == "PARIS" && Upper("Paris") == "PARIS" && Upper("PARIS") == "PARIS"
  {
  }

  /** `" paris "` matches `PARIS`: case and surrounding spaces are ignored. */
  lemma PaddedLowerCaseAccepted()
    ensures AnswerMatches(" paris ", "PARIS")
  {
    assert " paris " == " " + "paris" + " ";
    PaddingIgnored(" ", "paris", " ", "PARIS");
    TrimOfTrimmed("paris");
    UpperParis();
  }

  /** `" Paris "` matches `PARIS`. */
  lemma PaddedMixedCaseAccepted()
    ensures AnswerMatches(" Paris ", "PARIS")
  {
    assert " Paris " == " " + "Paris" + " ";
    PaddingIgnored(" ", "Paris", " ", "PARIS");
    TrimOfTrimmed("Paris");
    UpperParis();
  }

  /** `"paris"` and `"PARIS"` match `PARIS`, and `"m"` matches the seeded first quest's `M`. */
  lemma PlainExamplesAccepted()
    ensures AnswerMatches("paris", "PARIS")
    ensures AnswerMatches("PARIS", "PARIS")
    ensures AnswerMatches("m", "M")
  {
    TrimOfTrimmed("paris");
    TrimOfTrimmed("PARIS");
    TrimOfTrimmed("m");
    UpperParis();
  }

  /** `"Pari"` is rejected for `PARIS`, and so is everything for a stored `" PARIS"`. */
  lemma ExamplesRejected()
    ensures !AnswerMatches("Pari", "PARIS")
    ensures !AnswerMatches("PARIS", " PARIS")
  {
    TrimOfTrimmed("Pari");
    assert |Upper("Pari")| != |Upper("PARIS")|;
    PaddedStoredAnswerUnmatchable("PARIS", " PARIS");
  }
}
