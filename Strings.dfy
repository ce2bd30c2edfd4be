/** The JavaScript string built-ins the core relies on, on `seq<char>`:
    `startsWith`, substring search, `split` on a one-character separator,
    `Array.prototype.join` and `trim`. */
module Strings {
  import opened Wrappers

  /** `t` occurs in `s` starting at index `i`. */
  predicate OccursAt(s: string, t: string, i: nat) {
    i + |t| <= |s| && s[i..i + |t|] == t
  }

  /** `s.startsWith(prefix)`. */
  predicate StartsWith(s: string, prefix: string) {
    |prefix| <= |s| && s[..|prefix|] == prefix
  }

  predicate EndsWith(s: string, suffix: string) {
    |suffix| <= |s| && s[|s| - |suffix|..] == suffix
  }

  /** `t` occurs nowhere in `s`. */
  predicate Absent(s: string, t: string) {
    forall i: nat | i <= |s| :: !OccursAt(s, t, i)
  }

  /** The leftmost occurrence of `t` in `s` at or after `from`. */
  function Find(s: string, t: string, from: nat): (r: Option<nat>)
    ensures r.Some? ==> from <= r.value && OccursAt(s, t, r.value)
    ensures r.Some? ==> forall i: nat | from <= i < r.value :: !OccursAt(s, t, i)
    ensures r.None? ==> forall i: nat | from <= i :: !OccursAt(s, t, i)
    decreases |s| - from
  {
    if from + |t| > |s| then None
    else if OccursAt(s, t, from) then Some(from)
    else Find(s, t, from + 1)
  }

  // ---------------------------------------------------------------------
  // split and join

  /** `s.split(sep)` for a one-character separator: the pieces between
      separators, so a string with k separators gives k + 1 pieces. */
  function Split(s: string, sep: char): (parts: seq<string>)
    ensures |parts| >= 1
    ensures forall i | 0 <= i < |parts| :: sep !in parts[i]
  {
    if s == [] then [""]
    else
      var rest := Split(s[1..], sep);
      if s[0] == sep then [""] + rest
      else [[s[0]] + rest[0]] + rest[1..]
  }

  /** `parts.join(sep)`; the empty array joins to "". */
  function Join(parts: seq<string>, sep: string): string {
    if |parts| == 0 then ""
    else if |parts| == 1 then parts[0]
    else parts[0] + sep + Join(parts[1..], sep)
  }

  lemma {:induction false} JoinAppend(a: seq<string>, b: seq<string>, sep: string)
    requires |a| > 0 && |b| > 0
    ensures Join(a + b, sep) == Join(a, sep) + sep + Join(b, sep)
  {
    if |a| == 1 {
      assert (a + b)[1..] == b;
    } else {
      assert (a + b)[1..] == a[1..] + b;
      JoinAppend(a[1..], b, sep);
    }
  }

  /** Splitting and re-joining on the same separator gives back the input. */
  lemma {:induction false} JoinSplit(s: string, sep: char)
    ensures Join(Split(s, sep), [sep]) == s
  {
    if s != [] {
      var rest := Split(s[1..], sep);
      JoinSplit(s[1..], sep);
      if s[0] == sep {
        if |rest| == 1 {
          assert Join([""] + rest, [sep]) == "" + [sep] + rest[0];
        } else {
          JoinAppend([""], rest, [sep]);
        }
      } else {
        var parts := [[s[0]] + rest[0]] + rest[1..];
        if |rest| == 1 {
          assert parts == [[s[0]] + rest[0]];
        } else {
          assert parts[1..] == rest[1..];
          assert Join(rest, [sep]) == rest[0] + [sep] + Join(rest[1..], [sep]);
        }
      }
    }
  }

  lemma {:induction false} SplitWithoutSeparator(s: string, sep: char)
    requires sep !in s
    ensures Split(s, sep) == [s]
  {
    if s != [] {
      assert forall c | c in s[1..] :: c in s;
      SplitWithoutSeparator(s[1..], sep);
      assert [s[0]] + s[1..] == s;
    }
  }

  lemma {:induction false} SplitAtFirstSeparator(x: string, y: string, sep: char)
    requires sep !in x
    ensures Split(x + [sep] + y, sep) == [x] + Split(y, sep)
  {
    if x == [] {
      assert (x + [sep] + y)[1..] == y;
    } else {
      assert (x + [sep] + y)[1..] == x[1..] + [sep] + y;
      SplitAtFirstSeparator(x[1..], y, sep);
      assert [x[0]] + x[1..] == x;
    }
  }

  /** Joining pieces that hold no separator and splitting again gives back
      the pieces. */
  lemma {:induction false} SplitJoin(parts: seq<string>, sep: char)
    requires |parts| >= 1
    requires forall i | 0 <= i < |parts| :: sep !in parts[i]
    ensures Split(Join(parts, [sep]), sep) == parts
  {
    if |parts| == 1 {
      SplitWithoutSeparator(parts[0], sep);
    } else {
      SplitJoin(parts[1..], sep);
      SplitAtFirstSeparator(parts[0], Join(parts[1..], [sep]), sep);
      assert [parts[0]] + parts[1..] == parts;
    }
  }

  /** A concatenation starts with its first piece and ends with its last. */
  lemma Framed(pre: string, mid: string, post: string)
    ensures StartsWith(pre + mid + post, pre) && EndsWith(pre + mid + post, post)
  {
    assert (pre + mid + post)[..|pre|] == pre;
    assert (pre + mid + post)[|pre + mid|..] == post;
  }

  /** A part that holds the separator joins like the two parts on either
      side of it. */
  lemma JoinMerge(a: seq<string>, p: string, q: string, b: seq<string>, sep: string)
    requires |a| > 0 && |b| > 0
    ensures Join(a + [p + sep + q] + b, sep) == Join(a + [p, q] + b, sep)
  {
    var merged, pair := [p + sep + q], [p, q];
    assert Join(pair, sep) == p + sep + q by {
      assert pair[1..] == [q];
    }
    calc {
      Join(a + merged + b, sep);
      { assert a + merged + b == a + (merged + b); JoinAppend(a, merged + b, sep); }
      Join(a, sep) + sep + Join(merged + b, sep);
      { JoinAppend(merged, b, sep); }
      Join(a, sep) + sep + (Join(pair, sep) + sep + Join(b, sep));
      { JoinAppend(pair, b, sep); }
      Join(a, sep) + sep + Join(pair + b, sep);
      { assert a + pair + b == a + (pair + b); JoinAppend(a, pair + b, sep); }
      Join(a + pair + b, sep);
    }
  }

  /** Index in `Join(parts, sep)` at which `parts[k]` begins. */
  function JoinOffset(parts: seq<string>, sep: string, k: nat): nat
    requires k <= |parts|
  {
    if k == 0 then 0 else |Join(parts[..k], sep)| + |sep|
  }

  lemma JoinStartsWithFirst(parts: seq<string>, sep: string)
    requires |parts| > 0
    ensures StartsWith(Join(parts, sep), parts[0])
  {
  }

  /** Every part appears in the joined string at its offset. */
  lemma JoinPlacesPart(parts: seq<string>, sep: string, k: nat)
    requires k < |parts|
    ensures OccursAt(Join(parts, sep), parts[k], JoinOffset(parts, sep, k))
  {
    if k == 0 {
      JoinStartsWithFirst(parts, sep);
    } else {
      assert parts == parts[..k] + parts[k..];
      JoinAppend(parts[..k], parts[k..], sep);
      JoinStartsWithFirst(parts[k..], sep);
    }
  }

  /** Consecutive parts are laid out left to right, one separator apart. */
  lemma JoinOffsetNext(parts: seq<string>, sep: string, k: nat)
    requires k < |parts|
    ensures JoinOffset(parts, sep, k + 1) == JoinOffset(parts, sep, k) + |parts[k]| + |sep|
  {
    if k > 0 {
      assert parts[..k + 1] == parts[..k] + [parts[k]];
      JoinAppend(parts[..k], [parts[k]], sep);
    } else {
      assert parts[..1] == [parts[0]];
    }
  }

  // ---------------------------------------------------------------------
  // trim

  /** The characters `String.prototype.trim` removes: ECMAScript WhiteSpace
      (tab, vertical tab, form feed, space, no-break space, byte order mark
      and the Unicode space separators) and LineTerminator. */
  predicate IsWhitespace(c: char) {
    c == '\t' || c == '\n' || c == '\U{B}' || c == '\U{C}' || c == '\r' || c == ' '
    || c == '\U{A0}' || c == '\U{1680}' || ('\U{2000}' <= c <= '\U{200A}')
    || c == '\U{2028}' || c == '\U{2029}' || c == '\U{202F}' || c == '\U{205F}'
    || c == '\U{3000}' || c == '\U{FEFF}'
  }

  function TrimStart(s: string): (r: string)
    ensures |r| <= |s| && r == s[|s| - |r|..]
    ensures forall i | 0 <= i < |s| - |r| :: IsWhitespace(s[i])
    ensures r == [] || !IsWhitespace(r[0])
  {
    if s != [] && IsWhitespace(s[0]) then TrimStart(s[1..]) else s
  }

  function TrimEnd(s: string): (r: string)
    ensures |r| <= |s| && r == s[..|r|]
    ensures forall i | |r| <= i < |s| :: IsWhitespace(s[i])
    ensures r == [] || !IsWhitespace(r[|r| - 1])
  {
    if s != [] && IsWhitespace(s[|s| - 1]) then TrimEnd(s[..|s| - 1]) else s
  }

  /** Whitespace at neither end. */
  predicate Trimmed(s: string) {
    s == [] || (!IsWhitespace(s[0]) && !IsWhitespace(s[|s| - 1]))
  }

  /** `s.trim()`: `s` without its leading and trailing whitespace. */
  function Trim(s: string): (r: string)
    ensures Trimmed(r)
    ensures |r| <= |s|
  {
    TrimEnd(TrimStart(s))
  }

  /** `Trim(s)` is the slice of `s` left once the whitespace before `lead`
      and after `lead + |Trim(s)|` is dropped. */
  lemma TrimIsSlice(s: string) returns (lead: nat)
    ensures lead + |Trim(s)| <= |s| && Trim(s) == s[lead..lead + |Trim(s)|]
    ensures forall i | 0 <= i < lead :: IsWhitespace(s[i])
    ensures forall i | lead + |Trim(s)| <= i < |s| :: IsWhitespace(s[i])
  {
    var t := TrimStart(s);
    lead := |s| - |t|;
    var r := TrimEnd(t);
    assert r == t[..|r|];
    assert t == s[lead..];
    forall i | lead + |r| <= i < |s| ensures IsWhitespace(s[i]) {
      assert s[i] == t[i - lead];
    }
  }

  /** What does not occur in a string does not occur in a slice of it. */
  lemma {:induction false} AbsentInSlice(s: string, t: string, i: nat, j: nat)
    requires i <= j <= |s| && Absent(s, t)
    ensures Absent(s[i..j], t)
  {
    forall k: nat | k <= |s[i..j]| ensures !OccursAt(s[i..j], t, k) {
      if k + |t| <= j - i {
        var inner, outer := s[i..j][k..k + |t|], s[i + k..i + k + |t|];
        forall m | 0 <= m < |t| ensures inner[m] == outer[m] {
          assert inner[m] == s[i..j][k + m] == s[i + k + m];
        }
        assert inner == outer;
        assert !OccursAt(s, t, i + k);
      }
    }
  }

  /** Where `t` never occurs, no string that starts with `t` occurs either. */
  lemma AbsentExtended(s: string, t: string, u: string)
    requires Absent(s, t) && StartsWith(u, t)
    ensures Absent(s, u)
  {
    forall i: nat | i <= |s| ensures !OccursAt(s, u, i) {
      if OccursAt(s, u, i) {
        assert s[i..i + |t|] == u[..|t|];
        assert OccursAt(s, t, i);
      }
    }
  }

  /** Trimming removes text, so it never creates an occurrence. */
  lemma TrimKeepsAbsent(s: string, t: string)
    requires Absent(s, t)
    ensures Absent(Trim(s), t)
  {
    var lead := TrimIsSlice(s);
    AbsentInSlice(s, t, lead, lead + |Trim(s)|);
  }

  /** A string with whitespace at neither end is its own trim. */
  lemma TrimOfTrimmed(s: string)
    requires Trimmed(s)
    ensures Trim(s) == s
  {
  }

  lemma TrimIdempotent(s: string)
    ensures Trim(Trim(s)) == Trim(s)
  {
    TrimOfTrimmed(Trim(s));
  }

  /** Joining a list that has more than one part puts the first part, then
      the separator, then the rest joined. */
  lemma JoinCons(a: string, rest: seq<string>, sep: string)
    requires |rest| > 0
    ensures Join([a] + rest, sep) == a + sep + Join(rest, sep)
  {
    assert ([a] + rest)[1..] == rest;
  }
}
