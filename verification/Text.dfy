/** Substrings: where one text stands in another. */
module Text {

  /** `needle` stands in `text` at `i`. */
  predicate StandsAt(text: string, needle: string, i: nat) {
    i + |needle| <= |text| && text[i..i + |needle|] == needle
  }

  predicate Occurs(text: string, needle: string) {
    exists i: nat :: i <= |text| && StandsAt(text, needle, i)
  }

  /** What stands in a stretch of the text stands in the text. */
  lemma StretchOccurs(text: string, a: nat, b: nat, needle: string)
    requires a <= b <= |text| && Occurs(text[a..b], needle)
    ensures Occurs(text, needle)
  {
    var piece := text[a..b];
    var i: nat :| i <= |piece| && StandsAt(piece, needle, i);
    forall k | 0 <= k < |needle| ensures text[a + i + k] == needle[k] {
      assert piece[i..i + |needle|][k] == piece[i + k];
    }
    assert text[a + i..a + i + |needle|] == needle;
    assert StandsAt(text, needle, a + i);
  }

  lemma OccursThrough(text: string, middle: string, needle: string)
    requires Occurs(text, middle) && Occurs(middle, needle)
    ensures Occurs(text, needle)
  {
    var i: nat :| i <= |text| && StandsAt(text, middle, i);
    assert text[i..i + |middle|] == middle;
    StretchOccurs(text, i, i + |middle|, needle);
  }

  lemma OnlyItsOwnCharacters(text: string, needle: string, i: nat, j: nat)
    requires StandsAt(text, needle, i) && i <= j < i + |needle|
    ensures text[j] in needle
  {
    assert text[i..i + |needle|][j - i] == text[j];
  }

  /** A prefix in which the needle stands nowhere that it stands in the text does not hold it at all. */
  lemma CleanPrefix(text: string, needle: string, end: nat)
    requires end <= |text| && forall j: nat :: j + |needle| <= end ==> !StandsAt(text, needle, j)
    ensures !Occurs(text[..end], needle)
  {
    forall j: nat | j + |needle| <= end ensures !StandsAt(text[..end], needle, j) {
      assert text[..end][j..j + |needle|] == text[j..j + |needle|];
      assert !StandsAt(text, needle, j);
    }
  }

  /** Two texts with a character between them that the needle lacks: the needle stands in one or the other. */
  lemma NeedleKeepsToOneSide(left: string, c: char, right: string, needle: string)
    requires needle != "" && c !in needle && Occurs(left + [c] + right, needle)
    ensures Occurs(left, needle) || Occurs(right, needle)
  {
    var all := left + [c] + right;
    var i: nat :| i <= |all| && StandsAt(all, needle, i);
    assert all[|left|] == c;
    if i + |needle| <= |left| {
      assert left[i..i + |needle|] == all[i..i + |needle|];
      assert StandsAt(left, needle, i);
    } else if i <= |left| {
      OnlyItsOwnCharacters(all, needle, i, |left|);
      assert false;
    } else {
      var at := i - |left| - 1;
      assert right[at..at + |needle|] == all[i..i + |needle|];
      assert StandsAt(right, needle, at);
    }
  }

  /** So it stands in the whole exactly when it stands in a part. */
  lemma OccursAround(left: string, c: char, right: string, needle: string)
    requires needle != "" && c !in needle
    ensures Occurs(left + [c] + right, needle) <==> Occurs(left, needle) || Occurs(right, needle)
  {
    var all := left + [c] + right;
    assert all[0..|left|] == left && all[|left| + 1..|all|] == right;
    if Occurs(left, needle) { StretchOccurs(all, 0, |left|, needle); }
    if Occurs(right, needle) { StretchOccurs(all, |left| + 1, |all|, needle); }
    if Occurs(all, needle) { NeedleKeepsToOneSide(left, c, right, needle); }
  }

  /** A text that lacks one of the needle's characters does not hold it. */
  lemma LacksACharacter(text: string, needle: string, c: char)
    requires c in needle && c !in text
    ensures !Occurs(text, needle)
  {
    var k :| 0 <= k < |needle| && needle[k] == c;
    forall i: nat | i + |needle| <= |text| ensures !StandsAt(text, needle, i) {
      assert text[i..i + |needle|][k] == text[i + k] && text[i + k] in text;
    }
  }

  // ── Cutting at a character ──────────────────────────────────────────────────

  datatype Cut = Whole | Parts(before: string, after: string)

  /** Cut at the first `c`. */
  function CutAt(text: string, c: char): (cut: Cut)
    ensures cut.Parts? ==> text == cut.before + [c] + cut.after && c !in cut.before
    ensures cut.Whole? ==> c !in text
  {
    if text == "" then Whole
    else if text[0] == c then Parts("", text[1..])
    else match CutAt(text[1..], c)
      case Whole => Whole
      case Parts(a, b) => Parts([text[0]] + a, b)
  }

  /** What was put together around a `c` is taken apart at it, if the first part has none. */
  lemma {:induction false} CutUndoesJoin(a: string, c: char, b: string)
    requires c !in a
    ensures CutAt(a + [c] + b, c) == Parts(a, b)
  {
    if a == "" {
      assert a + [c] + b == [c] + b;
    } else {
      CutUndoesJoin(a[1..], c, b);
      assert (a + [c] + b)[1..] == a[1..] + [c] + b;
      assert [a[0]] + a[1..] == a;
    }
  }

  lemma NothingToCut(text: string, c: char)
    requires c !in text
    ensures CutAt(text, c) == Whole
  {
  }
}
