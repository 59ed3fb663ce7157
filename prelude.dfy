/** Small vocabulary shared by every module: optional values, results,
    and the few JavaScript semantics the components rely on
    (truthiness of strings and numbers, String.prototype.trim,
    String.prototype.includes, Array.prototype.filter). */
module Prelude {

  /** A TypeScript `?` field, or a value that may be `undefined`/`null`. */
  datatype Option<+T> = None | Some(value: T) {
    function GetOr(default: T): T {
      match this
      case Some(v) => v
      case None => default
    }
  }

  /** A value or the message of a thrown `Error`. */
  datatype Result<+T, +E> = Ok(value: T) | Err(error: E)

  function Min(a: int, b: int): int {
    if a <= b then a else b
  }

  /** JavaScript truthiness of an optional string: present and non-empty. */
  predicate TruthyText(s: Option<string>) {
    s.Some? && s.value != ""
  }

  /** JavaScript truthiness of an optional number: present and non-zero
      (NaN is not modelled). */
  predicate TruthyNumber(x: Option<real>) {
    x.Some? && x.value != 0.0
  }

  /** The characters String.prototype.trim removes: WhiteSpace (tab,
      vertical tab, form feed, space, no-break space, the byte order mark
      and the Unicode Zs category) and LineTerminator. */
  predicate IsJsSpace(c: char) {
    || c == '\t' || c == '\n' || c == '\U{000B}' || c == '\U{000C}' || c == '\r'
    || c == ' ' || c == '\U{00A0}' || c == '\U{1680}'
    || ('\U{2000}' <= c <= '\U{200A}')
    || c == '\U{2028}' || c == '\U{2029}' || c == '\U{202F}' || c == '\U{205F}'
    || c == '\U{3000}' || c == '\U{FEFF}'
  }

  predicate AllSpace(s: string) {
    forall i :: 0 <= i < |s| ==> IsJsSpace(s[i])
  }

  /** String.prototype.trim: white space is dropped from the start, then
      from the end, until neither end is white space. */
  function Trim(s: string): (r: string)
    ensures |r| <= |s|
    ensures r == "" || (!IsJsSpace(r[0]) && !IsJsSpace(r[|r| - 1]))
    ensures r == "" <==> AllSpace(s)
    decreases |s|
  {
    if s != "" && IsJsSpace(s[0]) then
      assert AllSpace(s) <==> AllSpace(s[1..]) by {
        assert forall i :: 1 <= i < |s| ==> s[i] == s[1..][i - 1];
      }
      Trim(s[1..])
    else if s != "" && IsJsSpace(s[|s| - 1]) then
      assert AllSpace(s) <==> AllSpace(s[..|s| - 1]) by {
        assert forall i :: 0 <= i < |s| - 1 ==> s[i] == s[..|s| - 1][i];
      }
      Trim(s[..|s| - 1])
    else s
  }

  /** `r` is what remains of `s` once white space only is cut from both
      ends: a slice of `s` with nothing but white space before and after. */
  predicate IsTrimmedSlice(s: string, r: string) {
    exists i, j :: 0 <= i <= j <= |s| && r == s[i..j] && AllSpace(s[..i]) && AllSpace(s[j..])
  }

  /** Trim removes exactly the leading and trailing white space of `s`. */
  lemma {:induction false} TrimIsSlice(s: string)
    ensures IsTrimmedSlice(s, Trim(s))
    decreases |s|
  {
    if s != "" && IsJsSpace(s[0]) {
      TrimIsSlice(s[1..]);
      SliceAfterSpace(s, Trim(s[1..]));
    } else if s != "" && IsJsSpace(s[|s| - 1]) {
      TrimIsSlice(s[..|s| - 1]);
      SliceBeforeSpace(s, Trim(s[..|s| - 1]));
    } else {
      assert s == s[0..|s|] && s[..0] == [] && s[|s|..] == [];
    }
  }

  /** A trimmed slice of `s[1..]` is one of `s` when `s[0]` is white space. */
  lemma SliceAfterSpace(s: string, r: string)
    requires s != "" && IsJsSpace(s[0]) && IsTrimmedSlice(s[1..], r)
    ensures IsTrimmedSlice(s, r)
  {
    var t := s[1..];
    var i, j :| 0 <= i <= j <= |t| && r == t[i..j] && AllSpace(t[..i]) && AllSpace(t[j..]);
    DropFirst(s, i, j);
    SpaceAppend([s[0]], t[..i]);
    TrimmedSliceAt(s, r, i + 1, j + 1);
  }

  /** A trimmed slice of `s` without its last character is one of `s` when
      that character is white space. */
  lemma SliceBeforeSpace(s: string, r: string)
    requires s != "" && IsJsSpace(s[|s| - 1]) && IsTrimmedSlice(s[..|s| - 1], r)
    ensures IsTrimmedSlice(s, r)
  {
    var t := s[..|s| - 1];
    var i, j :| 0 <= i <= j <= |t| && r == t[i..j] && AllSpace(t[..i]) && AllSpace(t[j..]);
    DropLast(s, i, j);
    SpaceAppend(t[j..], [s[|s| - 1]]);
    TrimmedSliceAt(s, r, i, j);
  }

  /** Slices of `s[1..]` are the slices of `s` shifted by one. */
  lemma DropFirst(s: string, i: nat, j: nat)
    requires i <= j < |s|
    ensures s[1..][i..j] == s[i + 1..j + 1]
    ensures s[..i + 1] == [s[0]] + s[1..][..i]
    ensures s[j + 1..] == s[1..][j..]
  {
  }

  /** Slices of `s` without its last character are the slices of `s`, the
      one running to the end missing that character. */
  lemma DropLast(s: string, i: nat, j: nat)
    requires i <= j < |s|
    ensures s[..|s| - 1][i..j] == s[i..j]
    ensures s[..|s| - 1][..i] == s[..i]
    ensures s[j..] == s[..|s| - 1][j..] + [s[|s| - 1]]
  {
  }

  /** White space followed by white space is white space. */
  lemma SpaceAppend(a: string, b: string)
    requires AllSpace(a) && AllSpace(b)
    ensures AllSpace(a + b)
  {
    assert forall k :: |a| <= k < |a + b| ==> (a + b)[k] == b[k - |a|];
  }

  /** The cut points `i` and `j` witness that `r` is a trimmed slice of `s`. */
  lemma TrimmedSliceAt(s: string, r: string, i: nat, j: nat)
    requires i <= j <= |s| && r == s[i..j] && AllSpace(s[..i]) && AllSpace(s[j..])
    ensures IsTrimmedSlice(s, r)
  {
  }

  /** A string without white space at either end is its own trim. */
  lemma TrimUntouched(s: string)
    requires s == "" || (!IsJsSpace(s[0]) && !IsJsSpace(s[|s| - 1]))
    ensures Trim(s) == s
  {
  }

  /** Trimming twice changes nothing more. */
  lemma TrimIdempotent(s: string)
    ensures Trim(Trim(s)) == Trim(s)
  {
  }

  predicate IsPrefix(p: string, s: string) {
    |p| <= |s| && s[..|p|] == p
  }

  /** String.prototype.includes. */
  function Contains(s: string, sub: string): (b: bool)
    ensures b <==> exists i :: 0 <= i <= |s| - |sub| && IsPrefix(sub, s[i..])
    decreases |s|
  {
    if |sub| > |s| then false
    else if IsPrefix(sub, s) then
      assert IsPrefix(sub, s[0..]);
      true
    else
      var b := Contains(s[1..], sub);
      assert b ==> exists i :: 0 <= i <= |s| - |sub| && IsPrefix(sub, s[i..]) by {
        if b {
          var i :| 0 <= i <= |s| - 1 - |sub| && IsPrefix(sub, s[1..][i..]);
          assert s[1..][i..] == s[i + 1..];
        }
      }
      assert (exists i :: 0 <= i <= |s| - |sub| && IsPrefix(sub, s[i..])) ==> b by {
        if exists i :: 0 <= i <= |s| - |sub| && IsPrefix(sub, s[i..]) {
          var i :| 0 <= i <= |s| - |sub| && IsPrefix(sub, s[i..]);
          assert i != 0;
          assert s[1..][i - 1..] == s[i..];
        }
      }
      b
  }

  /** Array.prototype.filter: keeps, in order, the elements satisfying `p`. */
  function Filter<T(!new)>(s: seq<T>, p: T -> bool): (r: seq<T>)
    ensures |r| <= |s|
    ensures forall x :: x in r <==> x in s && p(x)
    decreases |s|
  {
    if s == [] then []
    else
      var init := s[..|s| - 1];
      assert s == init + [s[|s| - 1]];
      Filter(init, p) + (if p(s[|s| - 1]) then [s[|s| - 1]] else [])
  }

  /** Filtering a sequence extended by one element filters the element last. */
  lemma FilterSnoc<T(!new)>(s: seq<T>, x: T, p: T -> bool)
    ensures Filter(s + [x], p) == Filter(s, p) + (if p(x) then [x] else [])
  {
    assert (s + [x])[..|s|] == s;
  }

  /** Filtering keeps each element satisfying `p` as often as it occurs,
      and drops every other. */
  lemma {:induction false} FilterCounts<T(!new)>(s: seq<T>, p: T -> bool)
    ensures forall x :: multiset(Filter(s, p))[x] == if p(x) then multiset(s)[x] else 0
    ensures multiset(Filter(s, p)) <= multiset(s)
    decreases |s|
  {
    if s != [] {
      var init, last := s[..|s| - 1], s[|s| - 1];
      assert s == init + [last];
      FilterCounts(init, p);
      FilterSnoc(init, last, p);
    }
  }
  /** Filtering keeps the order of the input: the filter of two runs is the
      filter of the first, then that of the second. */
  lemma {:induction false} FilterAppend<T(!new)>(a: seq<T>, b: seq<T>, p: T -> bool)
    ensures Filter(a + b, p) == Filter(a, p) + Filter(b, p)
    decreases |b|
  {
    if b == [] {
      assert a + b == a;
    } else {
      var init, last := b[..|b| - 1], b[|b| - 1];
      var ai := a + init;
      assert b == init + [last];
      assert a + b == ai + [last];
      var fa, fi, tail := Filter(a, p), Filter(init, p), if p(last) then [last] else [];
      calc {
        Filter(a + b, p);
        { FilterSnoc(ai, last, p); }
        Filter(ai, p) + tail;
        { FilterAppend(a, init, p); }
        (fa + fi) + tail;
        { AppendAssociative(fa, fi, tail); }
        fa + (fi + tail);
        { FilterSnoc(init, last, p); }
        fa + Filter(b, p);
      }
    }
  }

  /** Concatenation is associative. */
  lemma AppendAssociative<T>(x: seq<T>, y: seq<T>, z: seq<T>)
    ensures (x + y) + z == x + (y + z)
  {
  }

  /** No value occurs twice. */
  predicate NoDup<T(==)>(s: seq<T>) {
    forall i, j :: 0 <= i < j < |s| ==> s[i] != s[j]
  }
}
