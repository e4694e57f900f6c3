/** Small value types and the Python string and sequence primitives the
    rest of the model relies on (str.strip, str.rindex, slicing, `in`). */
module Common {

  datatype Option<+T> = None | Some(value: T)

  /** A Python call that either returns a value or raises; the error
      carries the exception text (str(e)). */
  datatype Result<+T> = Ok(value: T) | Err(error: string)

  /** A byte of a file's contents. */
  newtype Byte = x: int | 0 <= x < 256

  function Min(a: int, b: int): int { if a <= b then a else b }

  function Max(a: int, b: int): int { if a >= b then a else b }

  /** The characters for which Python's str.isspace() holds; these are
      the characters str.strip() with no argument removes. */
  predicate IsSpace(c: char)
  {
    var n := c as int;
    (9 <= n <= 13) || (28 <= n <= 32) || n == 0x85 || n == 0xA0 || n == 0x1680
    || (0x2000 <= n <= 0x200A) || n == 0x2028 || n == 0x2029 || n == 0x202F
    || n == 0x205F || n == 0x3000
  }

  /** `not s.strip()`: the string is empty or whitespace only. */
  predicate IsBlank(s: string)
  {
    forall i :: 0 <= i < |s| ==> IsSpace(s[i])
  }

  function TrimLeft(s: string): (r: string)
    ensures |r| <= |s| && r == s[|s| - |r|..]
    ensures forall i :: 0 <= i < |s| - |r| ==> IsSpace(s[i])
    ensures r != [] ==> !IsSpace(r[0])
  {
    if s != [] && IsSpace(s[0]) then TrimLeft(s[1..]) else s
  }

  function TrimRight(s: string): (r: string)
    ensures |r| <= |s| && r == s[..|r|]
    ensures forall i :: |r| <= i < |s| ==> IsSpace(s[i])
    ensures r != [] ==> !IsSpace(r[|r| - 1])
  {
    if s != [] && IsSpace(s[|s| - 1]) then TrimRight(s[..|s| - 1]) else s
  }

  /** r sits at offset k of s with only whitespace around it. */
  predicate PaddedAt(s: string, r: string, k: int)
  {
    0 <= k <= |s| - |r| && r == s[k..k + |r|]
    && (forall i :: 0 <= i < k ==> IsSpace(s[i]))
    && (forall i :: k + |r| <= i < |s| ==> IsSpace(s[i]))
  }

  /** Python's s.strip(): whitespace removed at both ends; the result
      neither begins nor ends with whitespace. */
  function Strip(s: string): (r: string)
    ensures |r| <= |s|
    ensures r != [] ==> !IsSpace(r[0]) && !IsSpace(r[|r| - 1])
  {
    TrimLeft(TrimRight(s))
  }

  /** The stripped string is a contiguous piece of s surrounded only by
      whitespace. */
  lemma StripIsPadded(s: string)
    ensures exists k :: PaddedAt(s, Strip(s), k)
  {
    var t := TrimRight(s);
    var r := TrimLeft(t);
    assert Strip(s) == r;
    assert PaddedAt(s, r, |t| - |r|);
  }

  /** The empty-after-strip test of the source agrees with IsBlank. */
  lemma StripEmptyIffBlank(s: string)
    ensures Strip(s) == [] <==> IsBlank(s)
  {
    StripIsPadded(s);
    var r := Strip(s);
    var k :| PaddedAt(s, r, k);
    if r == [] {
      forall i | 0 <= i < |s| ensures IsSpace(s[i]) {
        if i < k {} else {}
      }
    } else {
      assert s[k] == r[0];
    }
  }

  /** Python's s.rindex(c), with -1 standing for the ValueError of an
      absent character: the position of the last occurrence of c. */
  function LastIndexOf(s: string, c: char): (r: int)
    ensures -1 <= r < |s|
    ensures r == -1 <==> c !in s
    ensures r >= 0 ==> s[r] == c && forall j :: r < j < |s| ==> s[j] != c
  {
    if s == [] then -1
    else if s[|s| - 1] == c then |s| - 1
    else
      var r := LastIndexOf(s[..|s| - 1], c);
      assert c in s ==> c in s[..|s| - 1] by {
        if c in s {
          var i :| 0 <= i < |s| && s[i] == c;
          assert s[..|s| - 1][i] == c;
        }
      }
      r
  }

  /** The index Python uses for a slice bound `n` on a sequence of length
      `len`: negative bounds count from the end; both are clamped. */
  function SliceBound(n: int, len: nat): (r: nat)
    ensures r <= len
    ensures 0 <= n <= len ==> r == n
    ensures n > len ==> r == len
  {
    if n < 0 then (if len + n < 0 then 0 else len + n)
    else if n > len then len
    else n
  }

  /** Python's s[i:j] for arbitrary integers i and j. */
  function PySlice<T>(s: seq<T>, i: int, j: int): (r: seq<T>)
    ensures |r| <= |s|
    ensures 0 <= i <= j <= |s| ==> r == s[i..j]
    ensures 0 <= i <= |s| <= j ==> r == s[i..]
    ensures 0 <= j <= i ==> r == []
  {
    var lo := SliceBound(i, |s|);
    var hi := SliceBound(j, |s|);
    if lo < hi then s[lo..hi] else []
  }

  /** What a loop that has already collected p still owes when the rest
      of its input gives r: the collected prefix in front of r's value,
      or r's error. */
  function Prepend<T>(p: seq<T>, r: Result<seq<T>>): Result<seq<T>>
  {
    if r.Ok? then Ok(p + r.value) else r
  }

  lemma PrependEmpty<T>(r: Result<seq<T>>)
    ensures Prepend([], r) == r
  {
    if r.Ok? {
      assert [] + r.value == r.value;
    }
  }

  /** Collecting q after p is collecting p + q. */
  lemma PrependPrepend<T>(p: seq<T>, q: seq<T>, r: Result<seq<T>>)
    ensures Prepend(p, Prepend(q, r)) == Prepend(p + q, r)
  {
    if r.Ok? {
      AppendAssoc(p, q, r.value);
    }
  }

  lemma AppendAssoc<T>(a: seq<T>, b: seq<T>, c: seq<T>)
    ensures (a + b) + c == a + (b + c)
  {
  }

  /** str.lower() on the ASCII letters. */
  function LowerChar(c: char): char
  {
    if 'A' <= c <= 'Z' then (c as int + 32) as char else c
  }

  function Lower(s: string): (r: string)
    ensures |r| == |s|
    ensures forall i :: 0 <= i < |s| ==> r[i] == LowerChar(s[i])
  {
    seq(|s|, i requires 0 <= i < |s| => LowerChar(s[i]))
  }

  /** needle occurs in hay starting at position i. */
  predicate OccursAt(hay: string, needle: string, i: int)
  {
    0 <= i <= |hay| - |needle| && hay[i..i + |needle|] == needle
  }

  /** Python's `needle in hay` on strings: a substring test. */
  function Contains(hay: string, needle: string): (r: bool)
    ensures r <==> exists i :: OccursAt(hay, needle, i)
    decreases |hay|
  {
    if |needle| > |hay| then false
    else if hay[..|needle|] == needle then
      assert OccursAt(hay, needle, 0);
      true
    else
      var r := Contains(hay[1..], needle);
      assert r ==> exists i :: OccursAt(hay, needle, i) by {
        if r {
          var i :| OccursAt(hay[1..], needle, i);
          assert hay[i + 1..i + 1 + |needle|] == hay[1..][i..i + |needle|];
          assert OccursAt(hay, needle, i + 1);
        }
      }
      assert (exists i :: OccursAt(hay, needle, i)) ==> r by {
        if exists i :: OccursAt(hay, needle, i) {
          var i :| OccursAt(hay, needle, i);
          assert i != 0;
          assert hay[1..][i - 1..i - 1 + |needle|] == hay[i..i + |needle|];
          assert OccursAt(hay[1..], needle, i - 1);
        }
      }
      r
  }
  /** r is what a list comprehension `[x for x in s if p(x)]` gives: the
      k-th element of r is the element of s at position idx[k], the
      positions increase strictly, and they are exactly the positions of
      the elements satisfying p. So r keeps both the order and the
      multiplicity of the elements it keeps. */
  ghost predicate FilteredAt<T>(r: seq<T>, s: seq<T>, p: T -> bool, idx: seq<int>)
  {
    && |idx| == |r|
    && (forall k :: 0 <= k < |idx| ==> 0 <= idx[k] < |s| && r[k] == s[idx[k]])
    && (forall k, l :: 0 <= k < l < |idx| ==> idx[k] < idx[l])
    && (forall i :: 0 <= i < |s| ==> (p(s[i]) <==> i in idx))
  }

  /** Every position moved one place on. */
  function Shift(idx: seq<int>): (r: seq<int>)
    ensures |r| == |idx|
    ensures forall k :: 0 <= k < |idx| ==> r[k] == idx[k] + 1
  {
    seq(|idx|, k requires 0 <= k < |idx| => idx[k] + 1)
  }

  lemma FilterEmpty<T>(p: T -> bool)
    ensures FilteredAt([], [], p, [])
  {
  }

  /** Filtering h in front of s puts h in front of the filtered s exactly
      when h is kept; the kept positions are 0, when h is kept, followed by
      those of s moved one place on. */
  lemma FilterCons<T>(h: T, s: seq<T>, r: seq<T>, p: T -> bool, idx: seq<int>)
    requires FilteredAt(r, s, p, idx)
    ensures FilteredAt((if p(h) then [h] else []) + r, [h] + s, p, (if p(h) then [0] else []) + Shift(idx))
  {
    FilterShifted(h, s, r, p, idx);
    if p(h) {
      FilterKeepHead(h, s, r, p, idx);
    } else {
      FilterDropHead(h, s, r, p, idx);
      assert [] + r == r && [] + Shift(idx) == Shift(idx);
    }
  }

  /** The shifted positions pick r out of [h] + s, increase strictly, and
      are the positions from 1 on whose element is kept. */
  lemma FilterShifted<T>(h: T, s: seq<T>, r: seq<T>, p: T -> bool, idx: seq<int>)
    requires FilteredAt(r, s, p, idx)
    ensures var sh, s' := Shift(idx), [h] + s;
      && |sh| == |r|
      && (forall k :: 0 <= k < |sh| ==> 1 <= sh[k] < |s'| && r[k] == s'[sh[k]])
      && (forall k, l :: 0 <= k < l < |sh| ==> sh[k] < sh[l])
      && (forall i :: 1 <= i < |s'| ==> (p(s'[i]) <==> i in sh))
      && 0 !in sh
  {
    var sh, s' := Shift(idx), [h] + s;
    forall i | 1 <= i < |s'| ensures p(s'[i]) <==> i in sh {
      assert s'[i] == s[i - 1];
      if i - 1 in idx {
        var k :| 0 <= k < |idx| && idx[k] == i - 1;
        assert sh[k] == i;
      }
    }
  }

  lemma FilterDropHead<T>(h: T, s: seq<T>, r: seq<T>, p: T -> bool, idx: seq<int>)
    requires !p(h)
    requires var sh, s' := Shift(idx), [h] + s;
      && |sh| == |r|
      && (forall k :: 0 <= k < |sh| ==> 1 <= sh[k] < |s'| && r[k] == s'[sh[k]])
      && (forall k, l :: 0 <= k < l < |sh| ==> sh[k] < sh[l])
      && (forall i :: 1 <= i < |s'| ==> (p(s'[i]) <==> i in sh))
      && 0 !in sh
    ensures FilteredAt(r, [h] + s, p, Shift(idx))
  {
    var s' := [h] + s;
    assert s'[0] == h;
  }

  lemma FilterKeepHead<T>(h: T, s: seq<T>, r: seq<T>, p: T -> bool, idx: seq<int>)
    requires p(h)
    requires var sh, s' := Shift(idx), [h] + s;
      && |sh| == |r|
      && (forall k :: 0 <= k < |sh| ==> 1 <= sh[k] < |s'| && r[k] == s'[sh[k]])
      && (forall k, l :: 0 <= k < l < |sh| ==> sh[k] < sh[l])
      && (forall i :: 1 <= i < |s'| ==> (p(s'[i]) <==> i in sh))
    ensures FilteredAt([h] + r, [h] + s, p, [0] + Shift(idx))
  {
    var sh, s', r', idx' := Shift(idx), [h] + s, [h] + r, [0] + Shift(idx);
    assert forall k :: 1 <= k < |idx'| ==> idx'[k] == sh[k - 1] && r'[k] == r[k - 1];
    forall i | 0 <= i < |s'| ensures p(s'[i]) <==> i in idx' {
      if i > 0 && i in sh {
        var k :| 0 <= k < |sh| && sh[k] == i;
        assert idx'[k + 1] == i;
      }
    }
  }
}
