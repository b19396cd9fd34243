/** Identifier validation over the UTF-8 bytes of a string, and the byte order of identifiers. */
module Identifiers {
  import opened Model

  type Byte = b: nat | b < 256

  const MAX_IDENTIFIER_LENGTH: nat := 255
  const MAX_SEGMENT_LENGTH: nat := 63
  const DOT: Byte := 46
  const HYPHEN: Byte := 45

  datatype IdentifierError =
    | EmptyIdentifier
    | TooLong(actual: nat, maximum: nat)
    | NonAscii
    | EmptySegment(segment: nat)
    | SegmentTooLong(segment: nat, actual: nat, maximum: nat)
    | InvalidSegmentStart(segment: nat, byteIndex: nat)
    | InvalidCharacter(byteIndex: nat, character: Byte)
    | InvalidSegmentEnd(segment: nat, byteIndex: nat)

  predicate IsLower(b: Byte) {
    97 <= b <= 122
  }

  predicate IsInner(b: Byte) {
    IsLower(b) || 48 <= b <= 57 || b == HYPHEN
  }

  // ----- the grammar, by segments

  function Dots(v: seq<Byte>): nat {
    if v == [] then 0 else Dots(v[..|v| - 1]) + (if v[|v| - 1] == DOT then 1 else 0)
  }

  /** `v[s..e]` is the `n`-th part of `v` split at dots. */
  ghost predicate SegmentAt(v: seq<Byte>, n: nat, s: nat, e: nat) {
    && s <= e <= |v| && Dots(v[..s]) == n
    && (s == 0 || v[s - 1] == DOT) && (e == |v| || v[e] == DOT)
    && forall k :: s <= k < e ==> v[k] != DOT
  }

  /** Starts with a lower-case letter, goes on with letters, digits and hyphens, ends in no hyphen. */
  ghost predicate SegmentOk(v: seq<Byte>, s: nat, e: nat) {
    && s < e <= |v| && e - s <= MAX_SEGMENT_LENGTH && IsLower(v[s])
    && (forall k :: s < k < e ==> IsInner(v[k])) && v[e - 1] != HYPHEN
  }

  ghost predicate IsIdentifier(v: seq<Byte>) {
    && 1 <= |v| <= MAX_IDENTIFIER_LENGTH
    && forall n: nat, s: nat, e: nat :: SegmentAt(v, n, s, e) ==> SegmentOk(v, s, e)
  }

  ghost predicate EarlierOk(v: seq<Byte>, start: nat) {
    forall n: nat, s: nat, e: nat :: SegmentAt(v, n, s, e) && s < start ==> SegmentOk(v, s, e)
  }

  /** All 7-bit bytes. */
  ghost predicate IsAscii(v: seq<Byte>) {
    forall k :: 0 <= k < |v| ==> v[k] < 128
  }

  /** `error` is about segment `n`, which is `v[s..e]`; every check made before passed there. */
  ghost predicate SegmentError(v: seq<Byte>, error: IdentifierError, n: nat, s: nat, e: nat) {
    && SegmentAt(v, n, s, e) && EarlierOk(v, s)
    && match error
       case EmptySegment(i) => i == n && s == e
       case SegmentTooLong(i, actual, maximum) => i == n && actual == e - s && maximum == MAX_SEGMENT_LENGTH
           && actual > maximum
       case InvalidSegmentStart(i, at) => i == n && at == s && s < e <= s + MAX_SEGMENT_LENGTH && !IsLower(v[at])
       case InvalidCharacter(at, c) =>
         && s < at < e <= s + MAX_SEGMENT_LENGTH && v[at] == c && !IsInner(c)
         && IsLower(v[s]) && (forall k :: s < k < at ==> IsInner(v[k]))
       case InvalidSegmentEnd(i, at) =>
         && i == n && s < e <= s + MAX_SEGMENT_LENGTH && at == e - 1 && v[at] == HYPHEN
         && IsLower(v[s]) && (forall k :: s < k < e ==> IsInner(v[k]))
       case _ => false
  }

  /** What an error says about the string. */
  ghost predicate Reports(v: seq<Byte>, error: IdentifierError) {
    match error
    case EmptyIdentifier => v == []
    case TooLong(actual, maximum) => maximum == MAX_IDENTIFIER_LENGTH && actual == |v| && actual > maximum
    case NonAscii => 1 <= |v| <= MAX_IDENTIFIER_LENGTH && !IsAscii(v)
    case _ =>
      && 1 <= |v| <= MAX_IDENTIFIER_LENGTH && IsAscii(v)
      && exists n: nat, s: nat, e: nat :: SegmentError(v, error, n, s, e)
  }

  // ----- segments of one string

  lemma {:induction false} DotsGrow(v: seq<Byte>, i: nat, j: nat)
    requires i <= j <= |v|
    ensures Dots(v[..i]) <= Dots(v[..j])
    ensures (exists k :: i <= k < j && v[k] == DOT) ==> Dots(v[..i]) < Dots(v[..j])
    ensures (forall k :: i <= k < j ==> v[k] != DOT) ==> Dots(v[..i]) == Dots(v[..j])
  {
    if i < j {
      DotsGrow(v, i, j - 1);
      assert v[..j][..j - 1] == v[..j - 1];
    }
  }

  /** The number of a segment determines where it is. */
  lemma SegmentIsUnique(v: seq<Byte>, n: nat, s: nat, e: nat, s': nat, e': nat)
    requires SegmentAt(v, n, s, e) && SegmentAt(v, n, s', e')
    ensures s == s' && e == e'
  {
    assert (s > 0 ==> v[s - 1] == DOT) && (s' > 0 ==> v[s' - 1] == DOT);
    if s < s' { DotsGrow(v, s, s'); }
    if s' < s { DotsGrow(v, s', s); }
  }

  lemma SegmentStartIsUnique(v: seq<Byte>, n: nat, s: nat, e: nat, m: nat, t: nat, f: nat)
    requires SegmentAt(v, n, s, e) && SegmentAt(v, m, t, f) && s <= t
    ensures (t == s && f == e) || t > e
  {
    if t == s { SegmentIsUnique(v, n, s, e, t, f); }
  }

  /** Every byte that is no dot lies in a segment. */
  lemma {:induction false} PositionHasSegment(v: seq<Byte>, s: nat, k: nat, e: nat) returns (n: nat, s': nat, e': nat)
    requires s <= k < e <= |v| && forall i :: s <= i < e ==> v[i] != DOT
    ensures SegmentAt(v, n, s', e') && s' <= s && e <= e'
    decreases s + |v| - e
  {
    if s > 0 && v[s - 1] != DOT {
      n, s', e' := PositionHasSegment(v, s - 1, k, e);
    } else if e < |v| && v[e] != DOT {
      n, s', e' := PositionHasSegment(v, s, k, e + 1);
    } else {
      n, s', e' := Dots(v[..s]), s, e;
    }
  }

  lemma BadByteIsNoIdentifier(v: seq<Byte>, k: nat)
    requires k < |v| && v[k] != DOT && !IsInner(v[k])
    ensures !IsIdentifier(v)
  {
    var n, s, e := PositionHasSegment(v, k, k, k + 1);
    assert !SegmentOk(v, s, e);
  }

  /** The checks of one segment, in the order they are made. */
  method CheckSegment(value: seq<Byte>, segment: nat, offset: nat, end: nat) returns (error: Option<IdentifierError>)
    requires SegmentAt(value, segment, offset, end) && EarlierOk(value, offset)
    ensures error.None? <==> SegmentOk(value, offset, end)
    ensures error.Some? ==> SegmentError(value, error.value, segment, offset, end)
  {
    hide EarlierOk, SegmentAt;
    assert offset <= end <= |value| by { SegmentWithin(value, segment, offset, end); }
    if offset == end {
      return Some(EmptySegment(segment));
    }
    var length := end - offset;
    if length > MAX_SEGMENT_LENGTH {
      return Some(SegmentTooLong(segment, length, MAX_SEGMENT_LENGTH));
    }
    if !IsLower(value[offset]) {
      return Some(InvalidSegmentStart(segment, offset));
    }
    for index := 1 to length
      invariant forall k :: offset < k < offset + index ==> IsInner(value[k])
    {
      if !IsInner(value[offset + index]) {
        return Some(InvalidCharacter(offset + index, value[offset + index]));
      }
    }
    if value[end - 1] == HYPHEN {
      return Some(InvalidSegmentEnd(segment, end - 1));
    }
    error := None;
  }

  lemma SegmentWithin(v: seq<Byte>, n: nat, s: nat, e: nat)
    requires SegmentAt(v, n, s, e)
    ensures s <= e <= |v|
  {
  }

  /** The end of the segment that starts at `offset`. */
  method SegmentEnd(value: seq<Byte>, offset: nat) returns (end: nat)
    requires offset <= |value|
    ensures offset <= end <= |value| && (end == |value| || value[end] == DOT)
    ensures forall k :: offset <= k < end ==> value[k] != DOT
  {
    end := offset;
    while end < |value| && value[end] != DOT
      invariant offset <= end <= |value|
      invariant forall k :: offset <= k < end ==> value[k] != DOT
    {
      end := end + 1;
    }
  }

  lemma NextSegment(v: seq<Byte>, n: nat, s: nat, e: nat)
    requires SegmentAt(v, n, s, e) && EarlierOk(v, s) && SegmentOk(v, s, e)
    ensures EarlierOk(v, e + 1)
    ensures e < |v| ==> Dots(v[..e + 1]) == n + 1
  {
    forall m: nat, t: nat, f: nat | SegmentAt(v, m, t, f) && t < e + 1
      ensures SegmentOk(v, t, f)
    {
      if t >= s { SegmentStartIsUnique(v, n, s, e, m, t, f); }
    }
    if e < |v| {
      DotsGrow(v, s, e);
      assert v[..e + 1][..e] == v[..e];
    }
  }

  lemma ErrorRefutes(v: seq<Byte>, error: IdentifierError, n: nat, s: nat, e: nat)
    requires SegmentError(v, error, n, s, e) && !SegmentOk(v, s, e)
    requires 1 <= |v| <= MAX_IDENTIFIER_LENGTH && IsAscii(v)
    ensures Reports(v, error) && !IsIdentifier(v)
  {
  }

  /** Accepts exactly the identifiers, and reports a true reason otherwise. */
  method ValidateIdentifier(value: seq<Byte>) returns (error: Option<IdentifierError>)
    ensures error.None? <==> IsIdentifier(value)
    ensures error.Some? ==> Reports(value, error.value)
  {
    if value == [] {
      return Some(EmptyIdentifier);
    }
    if |value| > MAX_IDENTIFIER_LENGTH {
      return Some(TooLong(|value|, MAX_IDENTIFIER_LENGTH));
    }
    for i := 0 to |value|
      invariant forall k :: 0 <= k < i ==> value[k] < 128
    {
      if value[i] >= 128 {
        BadByteIsNoIdentifier(value, i);
        return Some(NonAscii);
      }
    }
    assert IsAscii(value);
    var offset, segment := 0, 0;
    hide SegmentOk, SegmentError, Reports, IsAscii;
    while offset <= |value|
      invariant offset <= |value| + 1 && EarlierOk(value, offset)
      invariant offset <= |value| ==> Dots(value[..offset]) == segment && (offset == 0 || value[offset - 1] == DOT)
    {
      var end := SegmentEnd(value, offset);
      error := CheckSegment(value, segment, offset, end);
      if error.Some? {
        ErrorRefutes(value, error.value, segment, offset, end);
        return;
      }
      NextSegment(value, segment, offset, end);
      segment := segment + 1;
      offset := end + 1;
    }
    error := None;
  }

  // ----- what the contract means

  /** The reported reason is the only one: the contract determines the result. */
  lemma ReportIsUnique(v: seq<Byte>, a: IdentifierError, b: IdentifierError)
    requires Reports(v, a) && Reports(v, b)
    ensures a == b
  {
    if 1 <= |v| <= MAX_IDENTIFIER_LENGTH && IsAscii(v) {
      var n: nat, s: nat, e: nat :| SegmentError(v, a, n, s, e);
      var m: nat, t: nat, f: nat :| SegmentError(v, b, m, t, f);
      ErrorIsNotOk(v, a, n, s, e);
      ErrorIsNotOk(v, b, m, t, f);
      assert s == t;
      assert m == n;
      SegmentIsUnique(v, n, s, e, t, f);
      SegmentErrorIsUnique(v, a, b, n, s, e);
    }
  }

  lemma ErrorIsNotOk(v: seq<Byte>, error: IdentifierError, n: nat, s: nat, e: nat)
    requires SegmentError(v, error, n, s, e)
    ensures !SegmentOk(v, s, e)
  {
    hide EarlierOk, SegmentAt;
  }

  lemma SegmentErrorIsUnique(v: seq<Byte>, a: IdentifierError, b: IdentifierError, n: nat, s: nat, e: nat)
    requires SegmentError(v, a, n, s, e) && SegmentError(v, b, n, s, e)
    ensures a == b
  {
    hide EarlierOk, SegmentAt;
  }

  /** An offset in an error is inside the string, in the reported segment, and names the
      offending byte; every earlier segment is valid. */
  lemma OffsetsPointAtTheFault(v: seq<Byte>, error: IdentifierError, at: nat)
    requires Reports(v, error)
    requires || (error.InvalidSegmentStart? && error.byteIndex == at)
        || (error.InvalidCharacter? && error.byteIndex == at)
             || (error.InvalidSegmentEnd? && error.byteIndex == at)
    ensures at < |v| && v[at] < 128
    ensures exists n: nat, s: nat, e: nat ::
              && SegmentAt(v, n, s, e) && s <= at < e && EarlierOk(v, s)
              && (error.InvalidCharacter? || error.segment == n)
    ensures error.InvalidSegmentStart? ==> !IsLower(v[at])
    ensures error.InvalidCharacter? ==> v[at] == error.character && !IsInner(v[at])
    ensures error.InvalidSegmentEnd? ==> v[at] == HYPHEN
  {
    var n: nat, s: nat, e: nat :| SegmentError(v, error, n, s, e);
    assert SegmentAt(v, n, s, e) && s <= at < e && EarlierOk(v, s);
  }

  /** The same grammar byte by byte: which byte may follow which, and no 64 bytes in a row without a dot. */
  ghost predicate IsIdentifierByBytes(v: seq<Byte>) {
    && 1 <= |v| <= MAX_IDENTIFIER_LENGTH
    && (forall k: nat :: k < |v| ==> ByteFits(v, k))
    && (forall k: nat :: k + MAX_SEGMENT_LENGTH < |v| ==> DotNear(v, k))
  }

  predicate StartsSegment(v: seq<Byte>, k: nat)
    requires k <= |v|
  {
    k == 0 || v[k - 1] == DOT
  }

  predicate ByteFits(v: seq<Byte>, k: nat)
    requires k < |v|
  {
    && (v[k] == DOT || IsInner(v[k])) && (StartsSegment(v, k) ==> IsLower(v[k]))
    && (v[k] == DOT || v[k] == HYPHEN ==> k + 1 < |v|)
    && (v[k] == HYPHEN ==> v[k + 1] != DOT)
  }

  ghost predicate DotNear(v: seq<Byte>, k: nat) {
    exists j :: k <= j <= k + MAX_SEGMENT_LENGTH && j < |v| && v[j] == DOT
  }

  lemma ByBytesIsIdentifier(v: seq<Byte>)
    requires IsIdentifierByBytes(v)
    ensures IsIdentifier(v)
  {
    forall n: nat, s: nat, e: nat | SegmentAt(v, n, s, e)
      ensures SegmentOk(v, s, e)
    {
      ByBytesSegment(v, n, s, e);
    }
  }

  lemma ByBytesSegment(v: seq<Byte>, n: nat, s: nat, e: nat)
    requires IsIdentifierByBytes(v) && SegmentAt(v, n, s, e)
    ensures SegmentOk(v, s, e)
  {
    if s > 0 { assert ByteFits(v, s - 1); }
    assert ByteFits(v, s);
    assert e - s > MAX_SEGMENT_LENGTH ==> DotNear(v, s);
    assert ByteFits(v, e - 1);
    forall k | s < k < e ensures IsInner(v[k]) { assert ByteFits(v, k); }
  }

  lemma {:induction false} StartHasSegment(v: seq<Byte>, s: nat, e: nat) returns (end: nat)
    requires s <= e <= |v| && (s == 0 || v[s - 1] == DOT) && forall k :: s <= k < e ==> v[k] != DOT
    ensures SegmentAt(v, Dots(v[..s]), s, end)
    decreases |v| - e
  {
    if e < |v| && v[e] != DOT { end := StartHasSegment(v, s, e + 1); } else { end := e; }
  }

  lemma StartIsLower(v: seq<Byte>, s: nat)
    requires IsIdentifier(v) && s <= |v| && (s == 0 || v[s - 1] == DOT)
    ensures s < |v| && IsLower(v[s])
  {
    var e := StartHasSegment(v, s, s);
    assert SegmentOk(v, s, e);
  }

  lemma HyphenIsFollowed(v: seq<Byte>, k: nat)
    requires IsIdentifier(v) && k < |v| && v[k] == HYPHEN
    ensures k + 1 < |v| && v[k + 1] != DOT
  {
    var n, s, e := PositionHasSegment(v, k, k, k + 1);
    assert SegmentOk(v, s, e);
  }

  lemma DotIsNear(v: seq<Byte>, k: nat)
    requires IsIdentifier(v) && k + MAX_SEGMENT_LENGTH < |v|
    ensures DotNear(v, k)
  {
    if !DotNear(v, k) {
      var n, s, e := PositionHasSegment(v, k, k, k + MAX_SEGMENT_LENGTH + 1);
    }
  }

  lemma IdentifierIsByBytes(v: seq<Byte>)
    requires IsIdentifier(v)
    ensures IsIdentifierByBytes(v)
  {
    forall k: nat | k < |v|
      ensures ByteFits(v, k)
    {
      if StartsSegment(v, k) { StartIsLower(v, k); }
      if v[k] == DOT { StartIsLower(v, k + 1); }
      else if v[k] == HYPHEN { HyphenIsFollowed(v, k); }
      else if !IsInner(v[k]) { BadByteIsNoIdentifier(v, k); }
    }
    forall k: nat | k + MAX_SEGMENT_LENGTH < |v|
      ensures DotNear(v, k)
    {
      DotIsNear(v, k);
    }
  }

  lemma GrammarsAgree(v: seq<Byte>)
    ensures IsIdentifier(v) <==> IsIdentifierByBytes(v)
  {
    if IsIdentifier(v) { IdentifierIsByBytes(v); }
    if IsIdentifierByBytes(v) { ByBytesIsIdentifier(v); }
  }

  // ----- the order of identifiers

  /** Lexicographic order of bytes, as strings are compared. */
  predicate BytesLess(a: seq<Byte>, b: seq<Byte>) {
    b != [] && (a == [] || a[0] < b[0] || (a[0] == b[0] && BytesLess(a[1..], b[1..])))
  }

  function Power(n: nat): (p: nat)
    ensures p >= 1
  {
    if n == 0 then 1 else 257 * Power(n - 1)
  }

  function Digit(b: Byte): nat {
    var d: nat := b;
    d + 1
  }

  /** The number of a string of at most `n` bytes, read in base 257 and padded on the right. */
  function Rank(v: seq<Byte>, n: nat): nat {
    if n == 0 || v == [] then 0 else Digit(v[0]) * Power(n - 1) + Rank(v[1..], n - 1)
  }

  lemma {:induction false} RankIsBelowPower(v: seq<Byte>, n: nat)
    requires |v| <= n
    ensures Rank(v, n) < Power(n)
  {
    if n > 0 && v != [] {
      RankIsBelowPower(v[1..], n - 1);
      Scale(Digit(v[0]), 256, Power(n - 1));
    }
  }

  lemma Scale(a: nat, b: nat, p: nat)
    ensures a <= b ==> a * p <= b * p
  {
  }

  lemma LeadingDigitDecides(a: nat, r: nat, b: nat, q: nat, p: nat)
    requires r < p && q < p
    ensures a < b ==> a * p + r < b * p + q
    ensures b < a ==> b * p + q < a * p + r
  {
    if a < b { Scale(a + 1, b, p); }
    if b < a { Scale(b + 1, a, p); }
  }

  /** Byte order and rank agree, so an identifier can be represented by its rank. */
  lemma {:induction false} RankIsFaithful(a: seq<Byte>, b: seq<Byte>, n: nat)
    requires |a| <= n && |b| <= n
    ensures BytesLess(a, b) <==> Rank(a, n) < Rank(b, n)
    ensures a == b <==> Rank(a, n) == Rank(b, n)
    decreases n
  {
    if a == [] || b == [] {
      if a != [] { NonEmptyRank(a, n); }
      if b != [] { NonEmptyRank(b, n); }
    } else {
      RankIsFaithful(a[1..], b[1..], n - 1);
      RankIsBelowPower(a[1..], n - 1);
      RankIsBelowPower(b[1..], n - 1);
      hide Power;
      LeadingDigitDecides(Digit(a[0]), Rank(a[1..], n - 1), Digit(b[0]), Rank(b[1..], n - 1), Power(n - 1));
      assert a == [a[0]] + a[1..] && b == [b[0]] + b[1..];
    }
  }

  lemma NonEmptyRank(a: seq<Byte>, n: nat)
    requires a != [] && |a| <= n
    ensures Rank(a, n) > 0
  {
    Scale(1, Digit(a[0]), Power(n - 1));
  }

  /** Valid identifiers are compared as their ranks are. */
  lemma IdentifierOrderIsRankOrder(a: seq<Byte>, b: seq<Byte>)
    requires IsIdentifier(a) && IsIdentifier(b)
    ensures BytesLess(a, b) <==> Rank(a, MAX_IDENTIFIER_LENGTH) < Rank(b, MAX_IDENTIFIER_LENGTH)
    ensures a == b <==> Rank(a, MAX_IDENTIFIER_LENGTH) == Rank(b, MAX_IDENTIFIER_LENGTH)
  {
    RankIsFaithful(a, b, MAX_IDENTIFIER_LENGTH);
  }
}
