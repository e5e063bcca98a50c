/** Removing foreign entities from a text before it is replayed. */
module Redact {
  import opened Base

  const MASK := "[redacted-by-remediation]"

  // ---- the shapes of an entity ----

  /** Digits and letters of an account number; characters beyond ASCII are let through, as the pattern's digit
      class reaches beyond ASCII. */
  predicate IsDigit(c: char) {
    '0' <= c <= '9' || c as int > 127
  }

  predicate IsAlnum(c: char) {
    '0' <= c <= '9' || 'a' <= c <= 'z' || 'A' <= c <= 'Z'
  }

  predicate IsUpper(c: char) {
    'A' <= c <= 'Z'
  }

  predicate IsLower(c: char) {
    'a' <= c <= 'z'
  }

  predicate IsSpace(c: char) {
    c == ' ' || 9 <= c as int <= 13 || 28 <= c as int <= 31 || c as int > 127
  }

  /** Two or more digits, a dash or slash, one to six letters or digits. */
  predicate IsAccount(e: string) {
    exists k :: 2 <= k < |e| && (forall i :: 0 <= i < k ==> IsDigit(e[i])) && (e[k] == '-' || e[k] == '/')
                && 1 <= |e| - k - 1 <= 6 && (forall i :: k < i < |e| ==> IsAlnum(e[i]))
  }

  /** A capital, then lower-case letters. */
  predicate IsWord(w: string) {
    |w| >= 2 && IsUpper(w[0]) && forall i :: 1 <= i < |w| ==> IsLower(w[i])
  }

  /** Two or more capitalised words with space between. */
  predicate IsProper(e: string) {
    exists k, m :: 2 <= k < m < |e| && IsWord(e[..k]) && (forall i :: k <= i < m ==> IsSpace(e[i]))
                   && (IsWord(e[m..]) || IsProper(e[m..]))
  }

  predicate IsEntity(e: string) {
    IsAccount(e) || IsProper(e)
  }

  /** Every string of the first pattern is covered. */
  lemma AccountShape(digits: string, mark: char, tail: string)
    requires |digits| >= 2 && forall i :: 0 <= i < |digits| ==> '0' <= digits[i] <= '9'
    requires (mark == '-' || mark == '/') && 1 <= |tail| <= 6
    requires forall i :: 0 <= i < |tail| ==>
               '0' <= tail[i] <= '9' || 'a' <= tail[i] <= 'z' || 'A' <= tail[i] <= 'Z'
    ensures IsEntity(digits + [mark] + tail)
  {
    var e, k := digits + [mark] + tail, |digits|;
    forall i | 0 <= i < k ensures IsDigit(e[i]) {
      assert e[i] == digits[i];
    }
    forall i | k < i < |e| ensures IsAlnum(e[i]) {
      assert e[i] == tail[i - k - 1];
    }
    assert 2 <= k < |e| && e[k] == mark && |e| - k - 1 == |tail|;
    assert IsAccount(e);
  }

  /** And so is every string of the second: a capitalised word, space, and another one or more such words. */
  lemma ProperShape(word: string, gap: string, rest: string)
    requires |word| >= 2 && 'A' <= word[0] <= 'Z' && forall i :: 1 <= i < |word| ==> 'a' <= word[i] <= 'z'
    requires gap != [] && forall i :: 0 <= i < |gap| ==> gap[i] == ' ' || 9 <= gap[i] as int <= 13
    requires IsProper(rest) || (|rest| >= 2 && 'A' <= rest[0] <= 'Z'
                                && forall i :: 1 <= i < |rest| ==> 'a' <= rest[i] <= 'z')
    ensures IsProper(word + gap + rest)
  {
    assert IsWord(word) && (IsWord(rest) || IsProper(rest));
    assert forall i :: 0 <= i < |gap| ==> IsSpace(gap[i]);
    ProperJoins(word + gap + rest, word, gap, rest);
  }

  lemma ProperJoins(e: string, word: string, gap: string, rest: string)
    requires e == word + gap + rest && IsWord(word) && (IsWord(rest) || IsProper(rest))
    requires gap != [] && forall i :: 0 <= i < |gap| ==> IsSpace(gap[i])
    ensures IsProper(e)
  {
    var k, m := |word|, |word| + |gap|;
    assert e[..k] == word && e[m..] == rest;
    forall i | k <= i < m ensures IsSpace(e[i]) {
      assert e[i] == gap[i - k];
    }
    assert IsProper(rest) ==> rest != [];
    assert 2 <= k < m < |e|;
  }

  /** What the proof needs of an entity: no bracket, and a character the mask does not have. */
  ghost predicate Alien(e: string) {
    && (forall i :: 0 <= i < |e| ==> e[i] != '[' && e[i] != ']')
    && (exists i :: 0 <= i < |e| && e[i] !in MASK)
  }

  predicate MaskChar(c: char) {
    c == '[' || c == ']' || c == '-' || IsLower(c)
  }

  lemma MaskChars()
    ensures forall i :: 0 <= i < |MASK| ==> MaskChar(MASK[i])
    ensures |MASK| == 25 && MASK[0] == '[' && MASK[24] == ']'
  {
  }

  lemma NotInMask(c: char)
    requires !MaskChar(c)
    ensures c !in MASK
  {
    MaskChars();
  }

  lemma WordIsAlien(w: string)
    requires IsWord(w)
    ensures Alien(w)
  {
    NotInMask(w[0]);
  }

  lemma {:induction false} ProperIsAlien(e: string)
    requires IsProper(e)
    ensures Alien(e)
    decreases |e|
  {
    var k, m :| 2 <= k < m < |e| && IsWord(e[..k]) && (forall i :: k <= i < m ==> IsSpace(e[i]))
                && (IsWord(e[m..]) || IsProper(e[m..]));
    WordIsAlien(e[..k]);
    if IsWord(e[m..]) { WordIsAlien(e[m..]); } else { ProperIsAlien(e[m..]); }
    forall i | 0 <= i < |e| ensures e[i] != '[' && e[i] != ']' {
      if i < k {
        assert e[i] == e[..k][i];
      } else if i >= m {
        assert e[i] == e[m..][i - m];
      }
    }
    assert e[0] == e[..k][0];
    NotInMask(e[0]);
  }

  lemma AccountIsAlien(e: string)
    requires IsAccount(e)
    ensures Alien(e)
  {
    NotInMask(e[0]);
  }

  lemma EntityIsAlien(e: string)
    requires IsEntity(e)
    ensures Alien(e)
  {
    if IsAccount(e) { AccountIsAlien(e); } else { ProperIsAlien(e); }
  }

  // ---- literal substitution ----

  /** Every leftmost, non-overlapping occurrence of the pattern replaced. */
  function Replace(t: string, pattern: string, mask: string): string
    requires pattern != []
    decreases |t|
  {
    if t == [] then []
    else if pattern <= t then mask + Replace(t[|pattern|..], pattern, mask)
    else [t[0]] + Replace(t[1..], pattern, mask)
  }

  ghost predicate OccursAt(w: string, t: string, i: nat) {
    i + |w| <= |t| && t[i..i + |w|] == w
  }

  ghost predicate Occurs(w: string, t: string) {
    exists i: nat :: OccursAt(w, t, i)
  }

  /** A bracketless beginning of the masked text is a beginning of the text. */
  lemma {:induction false} BeginningKept(w: string, t: string, e: string)
    requires e != [] && (forall i :: 0 <= i < |w| ==> w[i] != '[')
    requires w <= Replace(t, e, MASK)
    ensures w <= t
    decreases |t|
  {
    MaskChars();
    if w != [] && t != [] {
      var r := Replace(t, e, MASK);
      assert r[0] == w[0];
      if !(e <= t) {
        assert r[1..] == Replace(t[1..], e, MASK);
        assert w[1..] <= r[1..];
        BeginningKept(w[1..], t[1..], e);
        assert w == [w[0]] + w[1..] && t == [t[0]] + t[1..];
      }
    }
  }

  /** What occurs across the mask holds a bracket, and what lies inside it has only its characters. */
  lemma TouchingTheMask(w: string, rest: string, i: nat)
    requires OccursAt(w, MASK + rest, i) && i < |MASK|
    ensures !Alien(w)
  {
    MaskChars();
    var s := MASK + rest;
    forall k | 0 <= k < |w| ensures w[k] == s[i + k] {
      assert s[i..i + |w|][k] == s[i + k];
    }
    if i + |w| > |MASK| {
      assert w[|MASK| - 1 - i] == ']';
    } else {
      forall k | 0 <= k < |w| ensures w[k] in MASK {
        assert w[k] == MASK[i + k];
      }
    }
  }

  lemma PastTheMask(w: string, rest: string, i: nat)
    requires Alien(w) && OccursAt(w, MASK + rest, i)
    ensures i >= |MASK| && OccursAt(w, rest, i - |MASK|)
  {
    if i < |MASK| {
      TouchingTheMask(w, rest, i);
    } else {
      assert (MASK + rest)[i..i + |w|] == rest[i - |MASK|..i - |MASK| + |w|];
    }
  }

  /** Masking one entity creates no occurrence of any, and leaves none of its own. */
  lemma {:induction false} MaskedOccurrence(w: string, t: string, e: string, i: nat)
    requires Alien(w) && Alien(e) && OccursAt(w, Replace(t, e, MASK), i)
    ensures w != e && Occurs(w, t)
    decreases |t|
  {
    assert w != [] && e != [];
    var r := Replace(t, e, MASK);
    if e <= t {
      PastTheMask(w, Replace(t[|e|..], e, MASK), i);
      MaskedOccurrence(w, t[|e|..], e, i - |MASK|);
      OccursLater(w, t, |e|);
    } else if i > 0 {
      assert r[1..] == Replace(t[1..], e, MASK);
      assert r[1..][i - 1..i - 1 + |w|] == r[i..i + |w|];
      MaskedOccurrence(w, t[1..], e, i - 1);
      OccursLater(w, t, 1);
    } else {
      assert w <= r;
      BeginningKept(w, t, e);
      assert OccursAt(w, t, 0);
    }
  }

  lemma OccursLater(w: string, t: string, d: nat)
    requires d <= |t| && Occurs(w, t[d..])
    ensures Occurs(w, t)
  {
    var i: nat :| OccursAt(w, t[d..], i);
    assert t[d..][i..i + |w|] == t[d + i..d + i + |w|];
    assert OccursAt(w, t, d + i);
  }

  lemma MaskRemoves(t: string, e: string)
    requires Alien(e)
    ensures !Occurs(e, Replace(t, e, MASK))
  {
    if i: nat :| OccursAt(e, Replace(t, e, MASK), i) {
      MaskedOccurrence(e, t, e, i);
    }
  }

  lemma MaskCreatesNone(w: string, t: string, e: string)
    requires Alien(w) && Alien(e) && !Occurs(w, t)
    ensures !Occurs(w, Replace(t, e, MASK))
  {
    if i: nat :| OccursAt(w, Replace(t, e, MASK), i) {
      MaskedOccurrence(w, t, e, i);
    }
  }

  /** A pattern that does not occur changes nothing. */
  lemma {:induction false} AbsentStays(t: string, e: string, mask: string)
    requires e != [] && !Occurs(e, t)
    ensures Replace(t, e, mask) == t
    decreases |t|
  {
    if t != [] {
      if e <= t {
        assert OccursAt(e, t, 0);
      }
      if Occurs(e, t[1..]) {
        OccursLater(e, t, 1);
      }
      AbsentStays(t[1..], e, mask);
    }
  }

  /** Masking loses nothing but the entity: on a text without brackets, unmasking gives the text back. */
  lemma {:induction false} UnmaskRestores(t: string, e: string)
    requires e != [] && forall i :: 0 <= i < |t| ==> t[i] != '['
    ensures Replace(Replace(t, e, MASK), MASK, e) == t
    decreases |t|
  {
    MaskChars();
    if t != [] {
      if e <= t {
        var rest := Replace(t[|e|..], e, MASK);
        UnmaskRestores(t[|e|..], e);
        assert MASK <= MASK + rest && (MASK + rest)[|MASK|..] == rest;
        assert t == e + t[|e|..];
      } else {
        var r := [t[0]] + Replace(t[1..], e, MASK);
        UnmaskRestores(t[1..], e);
        assert r[0] != MASK[0];
        assert r[1..] == Replace(t[1..], e, MASK);
      }
    }
  }

  // ---- all entities ----

  ghost predicate NoneEmpty(order: seq<string>) {
    forall i :: 0 <= i < |order| ==> order[i] != []
  }

  ghost predicate NoneOccurs(order: seq<string>, text: string) {
    forall i :: 0 <= i < |order| ==> !Occurs(order[i], text)
  }

  /** The entities masked one after another. */
  ghost function MaskAll(text: string, order: seq<string>): string
    requires NoneEmpty(order)
  {
    if order == [] then text
    else Replace(MaskAll(text, order[..|order| - 1]), order[|order| - 1], MASK)
  }

  ghost predicate LongestFirst(order: seq<string>) {
    forall i, j :: 0 <= i < j < |order| ==> |order[i]| >= |order[j]|
  }

  /** A text masked for the entities so far. */
  ghost predicate MaskedFor(text: string, order: seq<string>, out: string) {
    && (forall i :: 0 <= i < |order| ==> IsEntity(order[i]))
    && NoneEmpty(order) && out == MaskAll(text, order) && NoneOccurs(order, out)
  }

  lemma MaskedForOneMore(text: string, order: seq<string>, out: string, e: string)
    requires MaskedFor(text, order, out) && IsEntity(e) && e != []
    ensures MaskedFor(text, order + [e], Replace(out, e, MASK))
  {
    EntityIsAlien(e);
    MaskRemoves(out, e);
    var more := order + [e];
    assert more[..|more| - 1] == order;
    forall i | 0 <= i < |more| ensures !Occurs(more[i], Replace(out, e, MASK)) {
      if i < |order| {
        EntityIsAlien(order[i]);
        MaskCreatesNone(order[i], out, e);
      }
    }
  }

  /** Masks every entity, longest first. No entity occurs in the result. */
  method RedactText(text: string, entities: set<string>) returns (out: string, ghost order: seq<string>)
    requires forall e :: e in entities ==> IsEntity(e)
    ensures SetOf(order) == entities && NoDup(order) && LongestFirst(order)
    ensures NoneEmpty(order) && out == MaskAll(text, order)
    ensures forall e :: e in entities ==> !Occurs(e, out)
  {
    out, order := text, [];
    var left := entities;
    while left != {}
      invariant LongestTaken(order, left, entities) && MaskedFor(text, order, out)
      decreases left
    {
      var e := Longest(left);
      EntityIsAlien(e);
      MaskedForOneMore(text, order, out, e);
      TakeLongest(order, left, entities, e);
      out, order, left := Replace(out, e, MASK), order + [e], left - {e};
    }
    forall e | e in entities ensures !Occurs(e, out) {
      assert e in SetOf(order);
      var i :| 0 <= i < |order| && order[i] == e;
    }
  }

  /** The longest entities in order, none shorter than one that is left. */
  ghost predicate LongestTaken(order: seq<string>, left: set<string>, entities: set<string>) {
    && left <= entities && SetOf(order) == entities - left && NoDup(order) && LongestFirst(order)
    && forall i, b :: 0 <= i < |order| && b in left ==> |order[i]| >= |b|
  }

  lemma TakeLongest(order: seq<string>, left: set<string>, entities: set<string>, e: string)
    requires LongestTaken(order, left, entities) && e in left && forall x :: x in left ==> |x| <= |e|
    ensures LongestTaken(order + [e], left - {e}, entities)
  {
    assert e !in SetOf(order);
    assert SetOf(order + [e]) == SetOf(order) + {e};
  }

  method Longest(s: set<string>) returns (m: string)
    requires s != {}
    ensures m in s && forall x :: x in s ==> |x| <= |m|
  {
    m :| m in s;
    var left := s - {m};
    while left != {}
      invariant m in s && left <= s
      invariant forall x :: x in s && x !in left ==> |x| <= |m|
      decreases left
    {
      var x :| x in left;
      if |x| > |m| {
        m := x;
      }
      left := left - {x};
    }
  }

  /** Redacting a redacted text changes nothing, in whatever order. */
  lemma {:induction false} RedactedStays(out: string, order: seq<string>)
    requires NoneEmpty(order) && NoneOccurs(order, out)
    ensures MaskAll(out, order) == out
  {
    if order != [] {
      RedactedStays(out, order[..|order| - 1]);
      AbsentStays(out, order[|order| - 1], MASK);
    }
  }
}
