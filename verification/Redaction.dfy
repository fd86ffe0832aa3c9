/**
 Taking every supplied password out of a message before it is logged: one secret after another, each by
 splitting the text at it and joining the pieces with a placeholder.
 */
module Redaction {
  import opened Text

  const PLACEHOLDER := "[REDACTED]"
  const WORD := "REDACTED"

  /** The first place at or after `from` where `needle` stands, or the length of the text. */
  function IndexOf(text: string, needle: string, from: nat): (i: nat)
    requires from <= |text|
    ensures from <= i <= |text|
    ensures i < |text| ==> StandsAt(text, needle, i)
    ensures forall j: nat :: from <= j < i ==> !StandsAt(text, needle, j)
    decreases |text| - from
  {
    if from == |text| || StandsAt(text, needle, from) then from else IndexOf(text, needle, from + 1)
  }

  /** `text.split(separator)`, left to right and without overlap. */
  function Split(text: string, separator: string): (pieces: seq<string>)
    requires separator != ""
    ensures pieces != []
    decreases |text|
  {
    var i := IndexOf(text, separator, 0);
    if i == |text| then [text] else [text[..i]] + Split(text[i + |separator|..], separator)
  }

  function Join(pieces: seq<string>, glue: string): string
    requires pieces != []
  {
    if |pieces| == 1 then pieces[0] else pieces[0] + glue + Join(pieces[1..], glue)
  }

  /** Take one secret out; an empty one is skipped. */
  function RedactOne(text: string, secret: string): string {
    if secret == "" then text else Join(Split(text, secret), PLACEHOLDER)
  }

  function Redact(message: string, secrets: seq<string>): string {
    if secrets == [] then message else RedactOne(Redact(message, secrets[..|secrets| - 1]), secrets[|secrets| - 1])
  }

  // ── Split and join ──────────────────────────────────────────────────────────

  /** Joining with the separator gives the text back. */
  lemma {:induction false} SplitJoinsBack(text: string, separator: string)
    requires separator != ""
    ensures Join(Split(text, separator), separator) == text
    decreases |text|
  {
    var i := IndexOf(text, separator, 0);
    if i < |text| {
      var rest := text[i + |separator|..];
      SplitJoinsBack(rest, separator);
      var pieces := Split(text, separator);
      assert pieces[1..] == Split(rest, separator);
      assert Join(pieces, separator) == text[..i] + separator + rest;
      assert text[i..i + |separator|] == separator;
      assert text == text[..i] + text[i..i + |separator|] + rest;
    }
  }

  /** No piece holds the separator. */
  lemma {:induction false} PiecesAreClean(text: string, separator: string, k: nat)
    requires separator != "" && k < |Split(text, separator)|
    ensures !Occurs(Split(text, separator)[k], separator)
    decreases |text|
  {
    var i := IndexOf(text, separator, 0);
    if i < |text| && k > 0 {
      var rest := text[i + |separator|..];
      assert Split(text, separator)[k] == Split(rest, separator)[k - 1];
      PiecesAreClean(rest, separator, k - 1);
    } else {
      assert text[..|text|] == text;
      assert Split(text, separator)[k] == text[..i];
      CleanPrefix(text, separator, i);
    }
  }

  /** Every piece is a stretch of the text, so what stands in a piece stood in the text. */
  lemma {:induction false} PiecesComeFromTheText(text: string, separator: string, k: nat, needle: string)
    requires separator != "" && k < |Split(text, separator)| && Occurs(Split(text, separator)[k], needle)
    ensures Occurs(text, needle)
    decreases |text|
  {
    var i := IndexOf(text, separator, 0);
    if i < |text| {
      var at := i + |separator|;
      if k == 0 {
        StretchOccurs(text, 0, i, needle);
      } else {
        assert Split(text, separator)[k] == Split(text[at..], separator)[k - 1];
        PiecesComeFromTheText(text[at..], separator, k - 1, needle);
        assert text[at..|text|] == text[at..];
        StretchOccurs(text, at, |text|, needle);
      }
    } else {
      assert Split(text, separator)[k] == text;
    }
  }

  // ── Where a secret can still stand ──────────────────────────────────────────

  /** A secret that shares no bracket with the placeholder. */
  predicate NoBrackets(s: string) {
    s != "" && '[' !in s && ']' !in s
  }

  /** In pieces joined by placeholders, such a needle stands in a piece or in the placeholder's word. */
  lemma {:induction false} NeedleStandsInAPiece(pieces: seq<string>, needle: string)
    requires pieces != [] && NoBrackets(needle) && Occurs(Join(pieces, PLACEHOLDER), needle)
    ensures Occurs(WORD, needle) || exists k :: 0 <= k < |pieces| && Occurs(pieces[k], needle)
  {
    if |pieces| > 1 {
      var rest := Join(pieces[1..], PLACEHOLDER);
      assert pieces[0] + PLACEHOLDER + rest == pieces[0] + ['['] + (WORD + [']'] + rest);
      NeedleKeepsToOneSide(pieces[0], '[', WORD + [']'] + rest, needle);
      if !Occurs(pieces[0], needle) {
        NeedleKeepsToOneSide(WORD, ']', rest, needle);
        if !Occurs(WORD, needle) {
          NeedleStandsInAPiece(pieces[1..], needle);
          var k :| 0 <= k < |pieces[1..]| && Occurs(pieces[1..][k], needle);
          assert Occurs(pieces[k + 1], needle);
        }
      }
    }
  }

  /** Redacting one secret takes that secret out and brings no other in. */
  lemma OneSecretIsGone(text: string, secret: string, other: string)
    requires NoBrackets(other) && !Occurs(WORD, other)
    ensures Occurs(RedactOne(text, secret), other) ==> Occurs(text, other) && other != secret
  {
    if secret != "" && Occurs(RedactOne(text, secret), other) {
      NeedleStandsInAPiece(Split(text, secret), other);
      var k :| 0 <= k < |Split(text, secret)| && Occurs(Split(text, secret)[k], other);
      PiecesAreClean(text, secret, k);
      PiecesComeFromTheText(text, secret, k, other);
    }
  }

  /** A secret with no bracket that is no part of the placeholder's word is gone, whatever is redacted beside it. */
  lemma {:induction false} SecretIsGone(message: string, secrets: seq<string>, i: nat)
    requires i < |secrets| && NoBrackets(secrets[i]) && !Occurs(WORD, secrets[i])
    ensures !Occurs(Redact(message, secrets), secrets[i])
  {
    var n := |secrets| - 1;
    if i < n {
      SecretIsGone(message, secrets[..n], i);
    }
    OneSecretIsGone(Redact(message, secrets[..n]), secrets[n], secrets[i]);
  }

  // ── What the script redacts ─────────────────────────────────────────────────

  predicate SafeChar(c: char) {
    'A' <= c <= 'Z' || 'a' <= c <= 'z' || '0' <= c <= '9' || c == '_' || c == '-'
  }

  /** The passwords the script accepts. */
  predicate SafePassword(p: string) {
    |p| >= 24 && forall i :: 0 <= i < |p| ==> SafeChar(p[i])
  }

  datatype Verdict = Accepted | UnsafeCharacter | TooShort

  /** `/^[A-Za-z0-9_-]+$/`, and then the length. */
  function AssertSafePassword(p: string): Verdict {
    if p == "" || !(forall i :: 0 <= i < |p| ==> SafeChar(p[i])) then UnsafeCharacter
    else if |p| < 24 then TooShort
    else Accepted
  }

  /** Accepted is what is long enough and made of letters, digits, underscores and hyphens, by their codes. */
  lemma AcceptedExactly(p: string)
    ensures AssertSafePassword(p) == Accepted <==> SafePassword(p)
    ensures AssertSafePassword(p) == Accepted <==>
              |p| >= 24 && forall c :: c in p ==>
                65 <= c as int <= 90 || 97 <= c as int <= 122 || 48 <= c as int <= 57 || c as int == 95 || c as int == 45
    ensures AssertSafePassword(p) == TooShort ==> 0 < |p| < 24 && forall i :: 0 <= i < |p| ==> SafeChar(p[i])
  {
    if forall c :: c in p ==> SafeChar(c) {
      forall i | 0 <= i < |p| ensures SafeChar(p[i]) { assert p[i] in p; }
    }
  }

  /** For every message and every list of accepted passwords, none of them is left anywhere in the output. */
  lemma RedactionIsComplete(message: string, secrets: seq<string>)
    requires forall i :: 0 <= i < |secrets| ==> AssertSafePassword(secrets[i]) == Accepted
    ensures forall i :: 0 <= i < |secrets| ==> !Occurs(Redact(message, secrets), secrets[i])
  {
    forall i | 0 <= i < |secrets| ensures !Occurs(Redact(message, secrets), secrets[i]) {
      SecretIsGone(message, secrets, i);
    }
  }

  // ── What else becomes of the text ───────────────────────────────────────────

  /** One secret: its occurrences, each apart from the others, become placeholders, and the text between them is kept. */
  lemma OnlyTheSecretGoes(text: string, secret: string)
    requires secret != ""
    ensures exists pieces :: pieces != []
              && text == Join(pieces, secret) && RedactOne(text, secret) == Join(pieces, PLACEHOLDER)
              && forall k :: 0 <= k < |pieces| ==> !Occurs(pieces[k], secret)
  {
    var pieces := Split(text, secret);
    SplitJoinsBack(text, secret);
    forall k | 0 <= k < |pieces| ensures !Occurs(pieces[k], secret) { PiecesAreClean(text, secret, k); }
  }

  /** A message that holds none of the secrets is not touched. */
  lemma {:induction false} NoSecretNoChange(message: string, secrets: seq<string>)
    requires forall i :: 0 <= i < |secrets| ==> secrets[i] == "" || !Occurs(message, secrets[i])
    ensures Redact(message, secrets) == message
  {
    if secrets != [] {
      var n := |secrets| - 1;
      NoSecretNoChange(message, secrets[..n]);
      if secrets[n] != "" {
        NothingToReplace(message, secrets[n]);
      }
    }
  }

  // ── And exactly when it is complete ─────────────────────────────────────────

  lemma {:induction false} ReplacingLeavesThePlaceholder(text: string, secret: string)
    requires secret != "" && Occurs(text, secret)
    ensures Occurs(RedactOne(text, secret), PLACEHOLDER)
  {
    var i := IndexOf(text, secret, 0);
    var rest := Join(Split(text[i + |secret|..], secret), PLACEHOLDER);
    assert Split(text, secret)[1..] == Split(text[i + |secret|..], secret);
    var out := text[..i] + PLACEHOLDER + rest;
    assert out[i..i + |PLACEHOLDER|] == PLACEHOLDER;
    assert StandsAt(out, PLACEHOLDER, i);
  }

  lemma NothingToReplace(text: string, secret: string)
    requires secret != "" && !Occurs(text, secret)
    ensures RedactOne(text, secret) == text
  {
    if IndexOf(text, secret, 0) < |text| {
      assert false;
    }
  }

  /** Once anything has been redacted the placeholder is there to stay: the last replacement leaves it whole. */
  lemma {:induction false} ThePlaceholderStays(message: string, secrets: seq<string>)
    requires forall i :: 0 <= i < |secrets| ==> secrets[i] != ""
    ensures Redact(message, secrets) == message || Occurs(Redact(message, secrets), PLACEHOLDER)
  {
    if secrets != [] {
      var n := |secrets| - 1;
      ThePlaceholderStays(message, secrets[..n]);
      var before := Redact(message, secrets[..n]);
      if Occurs(before, secrets[n]) {
        ReplacingLeavesThePlaceholder(before, secrets[n]);
      } else {
        NothingToReplace(before, secrets[n]);
      }
    }
  }

  /** Taking its own secret out of a message changes the message. */
  lemma {:induction false} ItsOwnSecretGoes(message: string, secrets: seq<string>, i: nat)
    requires i < |secrets| && message == secrets[i]
    requires forall j :: 0 <= j < |secrets| ==> secrets[j] != ""
    ensures Occurs(Redact(message, secrets), PLACEHOLDER)
  {
    var n := |secrets| - 1;
    var before := Redact(message, secrets[..n]);
    if i < n {
      ItsOwnSecretGoes(message, secrets[..n], i);
    } else {
      ThePlaceholderStays(message, secrets[..n]);
      if before == message {
        assert StandsAt(before, secrets[n], 0);
      }
    }
    if Occurs(before, secrets[n]) {
      ReplacingLeavesThePlaceholder(before, secrets[n]);
    } else {
      NothingToReplace(before, secrets[n]);
    }
  }

  /** A message that is nothing but a part of the word keeps it. */
  lemma PartOfTheWordStays(secrets: seq<string>, i: nat)
    requires forall j :: 0 <= j < |secrets| ==> secrets[j] != ""
    requires i < |secrets| && Occurs(WORD, secrets[i])
    ensures Occurs(Redact(secrets[i], secrets), secrets[i])
  {
    ItsOwnSecretGoes(secrets[i], secrets, i);
    assert PLACEHOLDER[1..9] == WORD;
    assert StandsAt(PLACEHOLDER, WORD, 1);
    OccursThrough(PLACEHOLDER, WORD, secrets[i]);
    OccursThrough(Redact(secrets[i], secrets), PLACEHOLDER, secrets[i]);
  }

  /** No message keeps any of the secrets. */
  ghost predicate Complete(secrets: seq<string>) {
    forall message, i :: 0 <= i < |secrets| ==> !Occurs(Redact(message, secrets), secrets[i])
  }

  /**
   For secrets without a bracket the condition is exact: every message comes out free of all of them if and
   only if none of them is part of the word the placeholder is made of.
   */
  lemma RedactionIsExact(secrets: seq<string>)
    requires forall i :: 0 <= i < |secrets| ==> NoBrackets(secrets[i])
    ensures Complete(secrets) <==> forall i :: 0 <= i < |secrets| ==> !Occurs(WORD, secrets[i])
  {
    forall i | 0 <= i < |secrets| && Occurs(WORD, secrets[i]) ensures !Complete(secrets) {
      PartOfTheWordStays(secrets, i);
    }
    if forall i :: 0 <= i < |secrets| ==> !Occurs(WORD, secrets[i]) {
      forall message, i | 0 <= i < |secrets| ensures !Occurs(Redact(message, secrets), secrets[i]) {
        SecretIsGone(message, secrets, i);
      }
    }
  }
}
