/**
 * The string built-ins the source relies on: `String.prototype.split` with a
 * non-empty separator, `Array.prototype.join`, `startsWith`, the decimal text
 * of an array index and `Number(segment)` as used on JSON pointer segments.
 */
module Text {
  import opened Wrappers

  /** `sep` occurs in `s` at position `j`. */
  predicate OccursAt(s: string, sep: string, j: nat) {
    j + |sep| <= |s| && s[j..j + |sep|] == sep
  }

  predicate Contains(s: string, sep: string) {
    exists j: nat | j <= |s| :: OccursAt(s, sep, j)
  }

  /** Position of the first occurrence of `sep` in `s` at or after `from`. */
  function FirstIndexFrom(s: string, sep: string, from: nat): (r: Option<nat>)
    requires |sep| > 0
    decreases |s| - from
    ensures r.Some? ==> from <= r.value && OccursAt(s, sep, r.value)
    ensures r.Some? ==> forall j: nat :: from <= j < r.value ==> !OccursAt(s, sep, j)
    ensures r.None? ==> forall j: nat :: from <= j ==> !OccursAt(s, sep, j)
  {
    if from + |sep| > |s| then None
    else if s[from..from + |sep|] == sep then Some(from)
    else FirstIndexFrom(s, sep, from + 1)
  }

  function FirstIndex(s: string, sep: string): (r: Option<nat>)
    requires |sep| > 0
    ensures r.Some? ==> OccursAt(s, sep, r.value) && forall j: nat :: j < r.value ==> !OccursAt(s, sep, j)
    ensures r.None? <==> !Contains(s, sep)
  {
    FirstIndexFrom(s, sep, 0)
  }

  /** `s.split(sep)`: the pieces between successive left-most occurrences of `sep`. */
  function Split(s: string, sep: string): (parts: seq<string>)
    requires |sep| > 0
    ensures |parts| >= 1
    decreases |s|
  {
    match FirstIndex(s, sep)
    case None => [s]
    case Some(i) => [s[..i]] + Split(s[i + |sep|..], sep)
  }

  /** `parts.join(sep)`. */
  function Join(parts: seq<string>, sep: string): string
    decreases |parts|
  {
    if |parts| == 0 then ""
    else if |parts| == 1 then parts[0]
    else parts[0] + sep + Join(parts[1..], sep)
  }

  /** Joining the pieces of a split with the same separator gives the string back. */
  lemma {:induction false} JoinSplit(s: string, sep: string)
    requires |sep| > 0
    ensures Join(Split(s, sep), sep) == s
    decreases |s|
  {
    match FirstIndex(s, sep)
    case None =>
    case Some(i) =>
      var tail := s[i + |sep|..];
      var rest := Split(tail, sep);
      assert Split(s, sep) == [s[..i]] + rest;
      JoinSplit(tail, sep);
      assert ([s[..i]] + rest)[1..] == rest;
      assert Join([s[..i]] + rest, sep) == s[..i] + sep + Join(rest, sep);
      assert s[i..i + |sep|] == sep;
      assert s == s[..i] + s[i..i + |sep|] + tail;
  }

  /** The text before the first occurrence of `sep` does not contain it. */
  lemma PrefixFree(s: string, sep: string, i: nat)
    requires |sep| > 0 && i <= |s| && forall j: nat :: j < i ==> !OccursAt(s, sep, j)
    ensures !Contains(s[..i], sep)
  {
    var head := s[..i];
    assert |head| == i;
    forall j: nat | j <= i ensures !OccursAt(head, sep, j) {
      if j + |sep| <= i {
        assert !OccursAt(s, sep, j);
        assert head[j..j + |sep|] == s[j..j + |sep|];
      }
    }
  }

  /** No piece of a split contains the separator. */
  lemma {:induction false} SplitPartsFree(s: string, sep: string)
    requires |sep| > 0
    ensures forall k :: 0 <= k < |Split(s, sep)| ==> !Contains(Split(s, sep)[k], sep)
    decreases |s|
  {
    match FirstIndex(s, sep)
    case None =>
    case Some(i) =>
      var tail := s[i + |sep|..];
      SplitPartsFree(tail, sep);
      var head := s[..i];
      PrefixFree(s, sep, i);
      var parts := Split(s, sep);
      assert parts == [head] + Split(tail, sep);
      forall k | 0 <= k < |parts| ensures !Contains(parts[k], sep) {
        if k > 0 { assert parts[k] == Split(tail, sep)[k - 1]; }
      }
  }

  /** With a one-character separator, a string free of it followed by the separator is split there. */
  lemma FirstIndexAfterFree(a: string, sep: string, b: string)
    requires |sep| == 1 && !Contains(a, sep)
    ensures FirstIndex(a + sep + b, sep) == Some(|a|)
  {
    var s := a + sep + b;
    assert OccursAt(s, sep, |a|) by { assert s[|a|..|a| + 1] == sep; }
    forall j: nat | j < |a| ensures !OccursAt(s, sep, j) {
      assert !OccursAt(a, sep, j);
      assert s[j..j + 1] == a[j..j + 1];
    }
  }

  /** A one-character string other than the separator does not contain it. */
  lemma CharFree(c: char, sep: string)
    requires |sep| == 1 && sep[0] != c
    ensures !Contains([c], sep)
  {
    forall j: nat | j <= 1 ensures !OccursAt([c], sep, j) {
      if j == 0 { assert [c][0..1] == [c]; }
    }
  }

  lemma SplitFree(s: string, sep: string)
    requires |sep| > 0 && !Contains(s, sep)
    ensures Split(s, sep) == [s]
  {
  }

  /** With a one-character separator, splitting a join of separator-free pieces gives the pieces back. */
  lemma {:induction false} SplitJoin(parts: seq<string>, sep: string)
    requires |sep| == 1 && |parts| >= 1
    requires forall k :: 0 <= k < |parts| ==> !Contains(parts[k], sep)
    ensures Split(Join(parts, sep), sep) == parts
    decreases |parts|
  {
    if |parts| == 1 {
      SplitFree(parts[0], sep);
    } else {
      var rest := Join(parts[1..], sep);
      FirstIndexAfterFree(parts[0], sep, rest);
      var s := parts[0] + sep + rest;
      assert s[..|parts[0]|] == parts[0];
      assert s[|parts[0]| + 1..] == rest;
      SplitJoin(parts[1..], sep);
      assert parts == [parts[0]] + parts[1..];
    }
  }

  lemma {:induction false} JoinAppend(parts: seq<string>, sep: string, last: string)
    requires |parts| >= 1
    ensures Join(parts + [last], sep) == Join(parts, sep) + sep + last
    decreases |parts|
  {
    if |parts| == 1 {
      assert (parts + [last])[1..] == [last];
    } else {
      assert (parts + [last])[1..] == parts[1..] + [last];
      JoinAppend(parts[1..], sep, last);
    }
  }

  /** Appending `sep + k` to a string adds exactly the piece `k` to its split. */
  lemma SplitAppend(s: string, sep: string, k: string)
    requires |sep| == 1 && !Contains(k, sep)
    ensures Split(s + sep + k, sep) == Split(s, sep) + [k]
  {
    var parts := Split(s, sep);
    JoinSplit(s, sep);
    SplitPartsFree(s, sep);
    JoinAppend(parts, sep, k);
    SplitJoin(parts + [k], sep);
  }

  predicate StartsWith(s: string, prefix: string) {
    |prefix| <= |s| && s[..|prefix|] == prefix
  }

  predicate IsDigit(c: char) {
    '0' <= c <= '9'
  }

  predicate AllDigits(s: string) {
    forall k :: 0 <= k < |s| ==> IsDigit(s[k])
  }

  /** The value of a string of decimal digits. */
  function DigitsValue(s: string): nat
    requires AllDigits(s)
    decreases |s|
  {
    if |s| == 0 then 0
    else DigitsValue(s[..|s| - 1]) * 10 + (s[|s| - 1] as int - '0' as int)
  }

  /** The decimal text of a natural number, as an array index renders in a template string. */
  function NatToString(n: nat): (s: string)
    ensures |s| >= 1 && AllDigits(s)
    decreases n
  {
    var d := ['0' + (n % 10) as char];
    if n < 10 then d else NatToString(n / 10) + d
  }

  lemma {:induction false} DigitsValueOfNatToString(n: nat)
    ensures DigitsValue(NatToString(n)) == n
    decreases n
  {
    var s := NatToString(n);
    if n >= 10 {
      DigitsValueOfNatToString(n / 10);
      assert s[..|s| - 1] == NatToString(n / 10);
    }
  }

  /** What `Number(segment)` gives: not a number, or an integer. */
  datatype NumberParse = NotANumber | Int(i: int)

  /**
   * `Number(s)` for the forms a pointer index takes: the empty string is 0, an
   * optional sign followed by decimal digits is that integer, anything else is NaN.
   */
  function ParseNumber(s: string): (r: NumberParse)
    ensures AllDigits(s) ==> r == Int(DigitsValue(s))
  {
    if AllDigits(s) then Int(DigitsValue(s))
    else if |s| >= 2 && s[0] == '-' && AllDigits(s[1..]) then Int(-(DigitsValue(s[1..]) as int))
    else if |s| >= 2 && s[0] == '+' && AllDigits(s[1..]) then Int(DigitsValue(s[1..]))
    else NotANumber
  }

  /** The index text that `_array` writes into a pointer parses back to that index. */
  lemma IndexRoundTrip(n: nat)
    ensures ParseNumber(NatToString(n)) == Int(n)
  {
    DigitsValueOfNatToString(n);
  }

  /** A string none of whose characters is a one-character separator does not contain it. */
  lemma CharsFree(s: string, sep: string)
    requires |sep| == 1 && forall k :: 0 <= k < |s| ==> s[k] != sep[0]
    ensures !Contains(s, sep)
  {
    forall j: nat ensures !OccursAt(s, sep, j) {
      if j + 1 <= |s| {
        assert s[j..j + 1] == [s[j]];
      }
    }
  }

  /** Index text never holds a `/`, so it is a single pointer segment. */
  lemma NatToStringHasNoSlash(n: nat)
    ensures !Contains(NatToString(n), "/") && NatToString(n) != "#"
  {
    var s := NatToString(n);
    CharsFree(s, "/");
    assert s[0] != '#';
  }
}
