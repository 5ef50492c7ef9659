/**
 * The JavaScript string built-ins the core relies on, over Dafny strings.
 * Character classes follow ECMAScript: `\s` and `trim` use the WhiteSpace and
 * LineTerminator code points, `\w` is `[A-Za-z0-9_]`. Case mapping is ASCII only.
 */
module Strings {
  import opened Sequences

  /** ECMAScript WhiteSpace or LineTerminator (the set `\s` and `trim` use). */
  predicate IsWhitespace(c: char) {
    var n := c as int;
    (0x09 <= n <= 0x0D) || n == 0x20 || n == 0xA0 || n == 0x1680 ||
    (0x2000 <= n <= 0x200A) || n == 0x2028 || n == 0x2029 || n == 0x202F ||
    n == 0x205F || n == 0x3000 || n == 0xFEFF
  }

  predicate NotWhitespace(c: char) {
    !IsWhitespace(c)
  }

  predicate NonEmpty(s: string) {
    s != ""
  }

  /** The `\w` class used by the regex word boundary `\b`. */
  predicate IsWordChar(c: char) {
    ('a' <= c <= 'z') || ('A' <= c <= 'Z') || ('0' <= c <= '9') || c == '_'
  }

  /** The `[a-z0-9]` class. */
  predicate IsLowerAlnum(c: char) {
    ('a' <= c <= 'z') || ('0' <= c <= '9')
  }

  function LowerChar(c: char): (r: char)
    ensures 'A' <= c <= 'Z' ==> r as int == c as int + 32
    ensures !('A' <= c <= 'Z') ==> r == c
  {
    if 'A' <= c <= 'Z' then (c as int + 32) as char else c
  }

  function UpperChar(c: char): (r: char)
    ensures 'a' <= c <= 'z' ==> r as int == c as int - 32
    ensures !('a' <= c <= 'z') ==> r == c
  {
    if 'a' <= c <= 'z' then (c as int - 32) as char else c
  }

  /** `toLowerCase()` restricted to ASCII letters. */
  function Lower(s: string): (r: string)
    ensures |r| == |s|
    ensures forall i :: 0 <= i < |s| ==> r[i] == LowerChar(s[i])
  {
    seq(|s|, i requires 0 <= i < |s| => LowerChar(s[i]))
  }

  /** The length of the longest prefix of `s` whose characters all satisfy `p`. */
  function LeadingCount(s: string, p: char -> bool): (n: nat)
    ensures n <= |s|
    ensures forall k :: 0 <= k < n ==> p(s[k])
    ensures n == |s| || !p(s[n])
    decreases |s|
  {
    if s == [] || !p(s[0]) then 0 else 1 + LeadingCount(s[1..], p)
  }

  /** Drops the longest prefix of `s` whose characters satisfy `p`. */
  function DropWhile(s: string, p: char -> bool): (r: string)
    ensures |r| <= |s| && r == s[|s| - |r|..]
    ensures forall k :: 0 <= k < |s| - |r| ==> p(s[k])
    ensures r == [] || !p(r[0])
  {
    s[LeadingCount(s, p)..]
  }

  function TrimStart(s: string): (r: string)
    ensures |r| <= |s| && r == s[|s| - |r|..]
    ensures forall k :: 0 <= k < |s| - |r| ==> IsWhitespace(s[k])
    ensures r == [] || !IsWhitespace(r[0])
  {
    DropWhile(s, IsWhitespace)
  }

  function TrimEnd(s: string): (r: string)
    ensures |r| <= |s| && r == s[..|r|]
    ensures forall k :: |r| <= k < |s| ==> IsWhitespace(s[k])
    ensures r == [] || !IsWhitespace(r[|r| - 1])
    decreases |s|
  {
    if s == [] || !IsWhitespace(s[|s| - 1]) then s else TrimEnd(s[..|s| - 1])
  }

  /** `trim()`: the part of `s` between its leading and trailing whitespace. */
  function Trim(s: string): (r: string)
    ensures |r| <= |s|
    ensures r == [] || (!IsWhitespace(r[0]) && !IsWhitespace(r[|r| - 1]))
    ensures var k := |s| - |TrimStart(s)|;
      && k + |r| <= |s| && r == s[k..k + |r|]
      && (forall j :: 0 <= j < k ==> IsWhitespace(s[j]))
      && (forall j :: k + |r| <= j < |s| ==> IsWhitespace(s[j]))
  {
    var t := TrimStart(s);
    TrimEndOfSuffix(s, t, |s| - |t|);
    TrimEnd(t)
  }

  /** What `TrimEnd` cuts off a suffix `t` of `s` is whitespace of `s`. */
  lemma TrimEndOfSuffix(s: string, t: string, k: nat)
    requires k <= |s| && t == s[k..]
    ensures k + |TrimEnd(t)| <= |s| && TrimEnd(t) == s[k..k + |TrimEnd(t)|]
    ensures forall j :: k + |TrimEnd(t)| <= j < |s| ==> IsWhitespace(s[j])
  {
    var r := TrimEnd(t);
    forall j | k + |r| <= j < |s| ensures IsWhitespace(s[j]) {
      assert s[j] == t[j - k];
    }
  }

  /** Trimming removes whitespace only: the other characters stay, in order. */
  lemma TrimKeepsText(s: string)
    ensures Filter(Trim(s), NotWhitespace) == Filter(s, NotWhitespace)
  {
    var head, tail := TrimParts(s);
    FilterSkipsWhitespace(s, head, Trim(s), tail);
  }

  /** Whitespace around `r` does not survive the non-whitespace filter. */
  lemma FilterSkipsWhitespace(s: string, head: string, r: string, tail: string)
    requires s == head + r + tail
    requires forall j :: 0 <= j < |head| ==> IsWhitespace(head[j])
    requires forall j :: 0 <= j < |tail| ==> IsWhitespace(tail[j])
    ensures Filter(s, NotWhitespace) == Filter(r, NotWhitespace)
  {
    FilterAround(head, r, tail, NotWhitespace);
  }

  /** `s.split(c)` for a one-character separator string. */
  function Split(s: string, c: char): (parts: seq<string>)
    ensures |parts| >= 1
    ensures forall i :: 0 <= i < |parts| ==> c !in parts[i]
    decreases |s|
  {
    if s == [] then [""]
    else if s[0] == c then [""] + Split(s[1..], c)
    else
      var rest := Split(s[1..], c);
      [[s[0]] + rest[0]] + rest[1..]
  }

  /** `parts.join(sep)`. */
  function Join(parts: seq<string>, sep: string): string
    decreases |parts|
  {
    if parts == [] then ""
    else if |parts| == 1 then parts[0]
    else parts[0] + sep + Join(parts[1..], sep)
  }

  lemma {:induction false} JoinSplit(s: string, c: char)
    ensures Join(Split(s, c), [c]) == s
    decreases |s|
  {
    if s == [] {
    } else if s[0] == c {
      JoinSplit(s[1..], c);
      var rest := Split(s[1..], c);
      assert Split(s, c) == [""] + rest;
      assert ([""] + rest)[1..] == rest;
    } else {
      JoinSplit(s[1..], c);
      var rest := Split(s[1..], c);
      var parts := [[s[0]] + rest[0]] + rest[1..];
      assert Split(s, c) == parts;
      if |rest| == 1 {
        assert Join(parts, [c]) == [s[0]] + rest[0];
      } else {
        assert parts[1..] == rest[1..];
        assert Join(rest, [c]) == rest[0] + [c] + Join(rest[1..], [c]);
        assert Join(parts, [c]) == [s[0]] + rest[0] + [c] + Join(rest[1..], [c]);
      }
    }
  }

  /** Joining one more part appends the separator and that part. */
  lemma {:induction false} JoinSnoc(parts: seq<string>, last: string, sep: string)
    requires parts != []
    ensures Join(parts + [last], sep) == Join(parts, sep) + sep + last
    decreases |parts|
  {
    var all := parts + [last];
    assert all[0] == parts[0];
    if |parts| > 1 {
      assert all[1..] == parts[1..] + [last];
      JoinSnoc(parts[1..], last, sep);
    } else {
      assert all[1..] == [last];
    }
  }

  lemma JoinConsHead(a: char, x: string, ys: seq<string>, sep: string)
    ensures Join([[a] + x] + ys, sep) == [a] + Join([x] + ys, sep)
  {
    if ys != [] {
      assert ([[a] + x] + ys)[1..] == ys;
      assert ([x] + ys)[1..] == ys;
    }
  }

  lemma JoinEmptyHead(ys: seq<string>, sep: string)
    requires ys != []
    ensures Join([""] + ys, sep) == sep + Join(ys, sep)
  {
    assert ([""] + ys)[1..] == ys;
  }

  /** `n` copies of `sep`. */
  function Copies(n: nat, sep: string): (r: seq<string>)
    ensures |r| == n && forall i :: 0 <= i < n ==> r[i] == sep
  {
    if n == 0 then [] else [sep] + Copies(n - 1, sep)
  }

  /** `parts.join(sep)` puts one `sep` between each two parts. */
  lemma {:induction false} JoinIsInterleave(parts: seq<string>, sep: string)
    requires |parts| >= 1
    ensures Join(parts, sep) == Interleave(parts, Copies(|parts| - 1, sep))
    decreases |parts|
  {
    if |parts| > 1 {
      JoinIsInterleave(parts[1..], sep);
      assert Copies(|parts| - 1, sep)[1..] == Copies(|parts| - 2, sep);
    }
  }

  /** The number of occurrences of `c` in `s`. */
  function Count(s: string, c: char): nat {
    if s == [] then 0 else (if s[0] == c then 1 else 0) + Count(s[1..], c)
  }

  lemma {:induction false} SplitLength(s: string, c: char)
    ensures |Split(s, c)| == Count(s, c) + 1
    decreases |s|
  {
    if s != [] {
      SplitLength(s[1..], c);
    }
  }

  /**
   * `s.split(/X+/)` where X is the character class `isSep`: the pieces between
   * maximal runs of separator characters (a leading or trailing run yields "").
   */
  function SplitRuns(s: string, isSep: char -> bool): (parts: seq<string>)
    ensures |parts| >= 1
    ensures forall i, k :: 0 <= i < |parts| && 0 <= k < |parts[i]| ==> !isSep(parts[i][k])
    ensures forall i :: 0 < i < |parts| - 1 ==> parts[i] != []
    ensures s != [] && !isSep(s[0]) ==> parts[0] != []
    decreases |s|
  {
    if s == [] then [""]
    else if isSep(s[0]) then [""] + SplitRuns(DropWhile(s, isSep), isSep)
    else
      var rest := SplitRuns(s[1..], isSep);
      [[s[0]] + rest[0]] + rest[1..]
  }

  /** The separator runs `s.split(/X+/)` cuts at, in order: each non-empty and made of class characters. */
  function SepRuns(s: string, isSep: char -> bool): (runs: seq<string>)
    ensures forall i :: 0 <= i < |runs| ==> runs[i] != []
    ensures forall i, k :: 0 <= i < |runs| && 0 <= k < |runs[i]| ==> isSep(runs[i][k])
    decreases |s|
  {
    if s == [] then []
    else if isSep(s[0]) then [s[..LeadingCount(s, isSep)]] + SepRuns(DropWhile(s, isSep), isSep)
    else SepRuns(s[1..], isSep)
  }

  /** `parts[0] + seps[0] + parts[1] + ... + seps[n - 1] + parts[n]`. */
  function Interleave(parts: seq<string>, seps: seq<string>): string
    requires |parts| == |seps| + 1
    decreases |seps|
  {
    if seps == [] then parts[0] else parts[0] + seps[0] + Interleave(parts[1..], seps[1..])
  }

  lemma InterleaveStart(parts: seq<string>, seps: seq<string>)
    requires |parts| == |seps| + 1
    ensures seps == [] ==> Interleave(parts, seps) == parts[0]
    ensures parts[0] != [] ==> Interleave(parts, seps) != [] && Interleave(parts, seps)[0] == parts[0][0]
  {
  }

  /** Putting the separator runs back between the pieces gives the input. */
  lemma {:induction false} SplitRunsRoundTrip(s: string, isSep: char -> bool)
    ensures |SplitRuns(s, isSep)| == |SepRuns(s, isSep)| + 1
    ensures Interleave(SplitRuns(s, isSep), SepRuns(s, isSep)) == s
    decreases |s|
  {
    if s == [] {
    } else if isSep(s[0]) {
      var n := LeadingCount(s, isSep);
      var t := DropWhile(s, isSep);
      SplitRunsRoundTrip(t, isSep);
      InterleaveSep(s[..n], SplitRuns(t, isSep), SepRuns(t, isSep));
      assert s == s[..n] + t;
    } else {
      SplitRunsRoundTrip(s[1..], isSep);
      InterleaveHead([s[0]], SplitRuns(s[1..], isSep), SepRuns(s[1..], isSep));
      assert s == [s[0]] + s[1..];
    }
  }

  lemma InterleaveSep(v: string, parts: seq<string>, seps: seq<string>)
    requires |parts| == |seps| + 1
    ensures Interleave([""] + parts, [v] + seps) == v + Interleave(parts, seps)
  {
    assert ([""] + parts)[1..] == parts;
    assert ([v] + seps)[1..] == seps;
  }

  lemma InterleaveHead(x: string, parts: seq<string>, seps: seq<string>)
    requires |parts| == |seps| + 1
    ensures Interleave([x + parts[0]] + parts[1..], seps) == x + Interleave(parts, seps)
  {
    var q := [x + parts[0]] + parts[1..];
    assert q[1..] == parts[1..];
  }

  /** A string without class characters is one piece. */
  lemma {:induction false} SplitRunsNoSep(w: string, isSep: char -> bool)
    requires forall k :: 0 <= k < |w| ==> !isSep(w[k])
    ensures SplitRuns(w, isSep) == [w] && SepRuns(w, isSep) == []
    decreases |w|
  {
    if w != [] {
      SplitRunsNoSep(w[1..], isSep);
      assert w == [w[0]] + w[1..];
    }
  }

  /** A word before a separator (or the end) joins the first piece of what follows. */
  lemma {:induction false} SplitRunsWord(u: string, q: string, isSep: char -> bool)
    requires forall k :: 0 <= k < |u| ==> !isSep(u[k])
    requires q == [] || isSep(q[0])
    ensures SplitRuns(u + q, isSep) == [u + SplitRuns(q, isSep)[0]] + SplitRuns(q, isSep)[1..]
    ensures SepRuns(u + q, isSep) == SepRuns(q, isSep)
    decreases |u|
  {
    var sq := SplitRuns(q, isSep);
    if u == [] {
      assert u + q == q;
      assert [sq[0]] + sq[1..] == sq;
    } else {
      var w := u[1..] + q;
      assert forall k :: 0 <= k < |u[1..]| ==> !isSep(u[1..][k]);
      SplitRunsWord(u[1..], q, isSep);
      assert u + q == [u[0]] + w;
      SplitRunsCons(u[0], w, isSep);
      SplitRunsWordStep(u, sq, SplitRuns(w, isSep));
    }
  }

  lemma SplitRunsWordStep(u: string, sq: seq<string>, rest: seq<string>)
    requires u != [] && sq != []
    requires rest == [u[1..] + sq[0]] + sq[1..]
    ensures [[u[0]] + rest[0]] + rest[1..] == [u + sq[0]] + sq[1..]
  {
    assert rest[0] == u[1..] + sq[0] && rest[1..] == sq[1..];
    assert [u[0]] + u[1..] == u;
    assert [u[0]] + rest[0] == u + sq[0];
  }

  /** A character outside the class joins the first piece of what follows it. */
  lemma SplitRunsCons(c: char, w: string, isSep: char -> bool)
    requires !isSep(c)
    ensures SplitRuns([c] + w, isSep) == [[c] + SplitRuns(w, isSep)[0]] + SplitRuns(w, isSep)[1..]
    ensures SepRuns([c] + w, isSep) == SepRuns(w, isSep)
  {
    assert ([c] + w)[1..] == w;
  }

  /** The leading run of `v + w` is all of `v` when `w` does not continue it. */
  lemma {:induction false} LeadingCountRun(v: string, w: string, p: char -> bool)
    requires forall k :: 0 <= k < |v| ==> p(v[k])
    requires w == [] || !p(w[0])
    ensures LeadingCount(v + w, p) == |v|
    decreases |v|
  {
    if v == [] {
      assert v + w == w;
    } else {
      assert (v + w)[0] == v[0];
      assert (v + w)[1..] == v[1..] + w;
      LeadingCountRun(v[1..], w, p);
    }
  }

  /** A whole separator run followed by a non-separator (or the end) starts an empty first piece. */
  lemma SplitRunsSep(v: string, w: string, isSep: char -> bool)
    requires v != [] && forall k :: 0 <= k < |v| ==> isSep(v[k])
    requires w == [] || !isSep(w[0])
    ensures SplitRuns(v + w, isSep) == [""] + SplitRuns(w, isSep)
    ensures SepRuns(v + w, isSep) == [v] + SepRuns(w, isSep)
  {
    var s := v + w;
    LeadingCountRun(v, w, isSep);
    assert s[0] == v[0];
    assert s[..|v|] == v && s[|v|..] == w;
    assert DropWhile(s, isSep) == w;
  }

  /**
   * `parts` and `seps` cut `s` the way `split(/X+/)` does: pieces free of
   * class characters, separated by non-empty runs of class characters, with
   * no empty piece between two runs.
   */
  ghost predicate IsSplit(s: string, isSep: char -> bool, parts: seq<string>, seps: seq<string>) {
    && |parts| == |seps| + 1 && Interleave(parts, seps) == s
    && (forall i, k :: 0 <= i < |parts| && 0 <= k < |parts[i]| ==> !isSep(parts[i][k]))
    && (forall i :: 0 <= i < |seps| ==> seps[i] != [])
    && (forall i, k :: 0 <= i < |seps| && 0 <= k < |seps[i]| ==> isSep(seps[i][k]))
    && (forall i :: 0 < i < |parts| - 1 ==> parts[i] != [])
  }

  /** Dropping the first piece and run of a split leaves a split of the rest. */
  lemma IsSplitTail(s: string, isSep: char -> bool, parts: seq<string>, seps: seq<string>)
    requires IsSplit(s, isSep, parts, seps) && seps != []
    ensures IsSplit(Interleave(parts[1..], seps[1..]), isSep, parts[1..], seps[1..])
  {
  }

  /** The first piece and run of a split, and where the rest starts. */
  lemma IsSplitHead(s: string, isSep: char -> bool, parts: seq<string>, seps: seq<string>)
    requires IsSplit(s, isSep, parts, seps) && seps != []
    ensures var w := Interleave(parts[1..], seps[1..]);
      && s == parts[0] + (seps[0] + w)
      && (w == [] || !isSep(w[0]))
      && (forall k :: 0 <= k < |parts[0]| ==> !isSep(parts[0][k]))
      && seps[0] != [] && (forall k :: 0 <= k < |seps[0]| ==> isSep(seps[0][k]))
  {
    InterleaveStart(parts[1..], seps[1..]);
    assert parts[1..][0] == parts[1];
    if |seps| > 1 {
      assert parts[1] != [];
    }
  }

  /** `SplitRuns` and `SepRuns` are the only split of `s`: `split(/X+/)` is fully determined. */
  lemma {:induction false} SplitRunsUnique(s: string, isSep: char -> bool, parts: seq<string>, seps: seq<string>)
    requires IsSplit(s, isSep, parts, seps)
    ensures parts == SplitRuns(s, isSep) && seps == SepRuns(s, isSep)
    decreases |seps|
  {
    if seps == [] {
      SplitRunsNoSep(s, isSep);
    } else {
      var w := Interleave(parts[1..], seps[1..]);
      IsSplitTail(s, isSep, parts, seps);
      SplitRunsUnique(w, isSep, parts[1..], seps[1..]);
      IsSplitHead(s, isSep, parts, seps);
      SplitRunsUniqueStep(s, isSep, parts[0], seps[0], w);
      assert [parts[0]] + parts[1..] == parts;
      assert [seps[0]] + seps[1..] == seps;
    }
  }

  /** A piece, then a whole run, then the rest: `split` gives the piece and the run, then the split of the rest. */
  lemma SplitRunsUniqueStep(s: string, isSep: char -> bool, u: string, v: string, w: string)
    requires s == u + (v + w)
    requires forall k :: 0 <= k < |u| ==> !isSep(u[k])
    requires v != [] && forall k :: 0 <= k < |v| ==> isSep(v[k])
    requires w == [] || !isSep(w[0])
    ensures SplitRuns(s, isSep) == [u] + SplitRuns(w, isSep)
    ensures SepRuns(s, isSep) == [v] + SepRuns(w, isSep)
  {
    SplitRunsSep(v, w, isSep);
    assert (v + w)[0] == v[0];
    SplitRunsWord(u, v + w, isSep);
    var first := SplitRuns(v + w, isSep);
    assert first[0] == [] && first[1..] == SplitRuns(w, isSep);
    assert u + first[0] == u;
  }

  /** The pieces and runs `SplitRuns` and `SepRuns` produce do form a split of `s`. */
  lemma SplitRunsIsSplit(s: string, isSep: char -> bool)
    ensures IsSplit(s, isSep, SplitRuns(s, isSep), SepRuns(s, isSep))
  {
    SplitRunsRoundTrip(s, isSep);
  }

  /** No two neighbouring characters of `s` are both whitespace. */
  ghost predicate SingleSpaced(s: string) {
    forall i, j :: 0 <= i < j < |s| && j == i + 1 ==> !(IsWhitespace(s[i]) && IsWhitespace(s[j]))
  }

  /** `s.replace(/\s+/g, " ")`: every maximal whitespace run becomes one space. */
  function CollapseWhitespace(s: string): (r: string)
    ensures |r| <= |s|
    ensures forall k :: 0 <= k < |r| && IsWhitespace(r[k]) ==> r[k] == ' '
    ensures SingleSpaced(r)
    ensures r == [] <==> s == []
    decreases |s|
  {
    if s == [] then []
    else if IsWhitespace(s[0]) then [' '] + CollapseWhitespace(DropWhile(s, IsWhitespace))
    else [s[0]] + CollapseWhitespace(s[1..])
  }

  /** Collapsing touches whitespace only: the other characters stay, in order. */
  lemma {:induction false} CollapseKeepsText(s: string)
    ensures Filter(CollapseWhitespace(s), NotWhitespace) == Filter(s, NotWhitespace)
    decreases |s|
  {
    if s == [] {
    } else if IsWhitespace(s[0]) {
      CollapseKeepsText(DropWhile(s, IsWhitespace));
      CollapseRunKeepsText(s);
    } else {
      CollapseKeepsText(s[1..]);
      FilterCons(s[0], s[1..], CollapseWhitespace(s[1..]));
      assert s == [s[0]] + s[1..];
    }
  }

  /** The step of `CollapseKeepsText` for a leading whitespace run. */
  lemma CollapseRunKeepsText(s: string)
    requires s != [] && IsWhitespace(s[0])
    requires var t := DropWhile(s, IsWhitespace);
      Filter(CollapseWhitespace(t), NotWhitespace) == Filter(t, NotWhitespace)
    ensures Filter(CollapseWhitespace(s), NotWhitespace) == Filter(s, NotWhitespace)
  {
    var t := DropWhile(s, IsWhitespace);
    SkipLeadingRun(s, t, |s| - |t|);
    SkipLeadingSpace(CollapseWhitespace(s), CollapseWhitespace(t));
  }

  /** A leading whitespace run does not survive the non-whitespace filter. */
  lemma SkipLeadingRun(s: string, t: string, n: nat)
    requires n <= |s| && t == s[n..]
    requires forall j :: 0 <= j < n ==> IsWhitespace(s[j])
    ensures Filter(s, NotWhitespace) == Filter(t, NotWhitespace)
  {
    FilterSkipsWhitespace(s, s[..n], t, []);
  }

  lemma SkipLeadingSpace(s: string, t: string)
    requires s == [' '] + t
    ensures Filter(s, NotWhitespace) == Filter(t, NotWhitespace)
  {
    FilterSkipsWhitespace(s, [' '], t, []);
  }

  lemma FilterCons(c: char, s: string, t: string)
    requires Filter(t, NotWhitespace) == Filter(s, NotWhitespace)
    ensures Filter([c] + t, NotWhitespace) == Filter([c] + s, NotWhitespace)
  {
    FilterAppend([c], s, NotWhitespace);
    FilterAppend([c], t, NotWhitespace);
  }



  /** `s.replace(/\s+/g, " ")` is `s.split(/\s+/).join(" ")`: the pieces between whitespace runs, one space between each two. */
  lemma {:induction false} CollapseJoinsPieces(s: string)
    ensures CollapseWhitespace(s) == Join(SplitRuns(s, IsWhitespace), " ")
    decreases |s|
  {
    if s == [] {
    } else if IsWhitespace(s[0]) {
      var t := DropWhile(s, IsWhitespace);
      CollapseJoinsPieces(t);
      JoinEmptyHead(SplitRuns(t, IsWhitespace), " ");
    } else {
      var rest := SplitRuns(s[1..], IsWhitespace);
      CollapseJoinsPieces(s[1..]);
      JoinConsHead(s[0], rest[0], rest[1..], " ");
      assert [rest[0]] + rest[1..] == rest;
    }
  }

  /** Collapsing keeps the pieces: the result splits into the same pieces, now cut by single spaces. */
  lemma CollapseSamePieces(s: string)
    ensures SplitRuns(CollapseWhitespace(s), IsWhitespace) == SplitRuns(s, IsWhitespace)
    ensures SepRuns(CollapseWhitespace(s), IsWhitespace) == Copies(|SplitRuns(s, IsWhitespace)| - 1, " ")
  {
    var parts := SplitRuns(s, IsWhitespace);
    CollapseJoinsPieces(s);
    JoinIsInterleave(parts, " ");
    SplitRunsUnique(CollapseWhitespace(s), IsWhitespace, parts, Copies(|parts| - 1, " "));
  }

  /** The words of `s`: the non-empty pieces between its whitespace runs. */
  function Words(s: string): (ws: seq<string>)
    ensures forall i :: 0 <= i < |ws| ==> ws[i] != []
    ensures forall i, k :: 0 <= i < |ws| && 0 <= k < |ws[i]| ==> !IsWhitespace(ws[i][k])
  {
    var parts := SplitRuns(s, IsWhitespace);
    var ws := Filter(parts, NonEmpty);
    assert forall i :: 0 <= i < |ws| ==> ws[i] in parts;
    ws
  }

  /** `trim()` keeps exactly the part between whitespace `a` and `b` that starts and ends outside whitespace. */
  lemma TrimUnique(s: string, a: string, r: string, b: string)
    requires s == a + r + b
    requires forall j :: 0 <= j < |a| ==> IsWhitespace(a[j])
    requires forall j :: 0 <= j < |b| ==> IsWhitespace(b[j])
    requires r == [] || (!IsWhitespace(r[0]) && !IsWhitespace(r[|r| - 1]))
    ensures Trim(s) == r
  {
    var t := Trim(s);
    var k := |s| - |TrimStart(s)|;
    assert forall j :: 0 <= j < |a| ==> s[j] == a[j];
    assert forall j :: |a| + |r| <= j < |s| ==> s[j] == b[j - |a| - |r|];
    if r == [] {
      assert forall j :: 0 <= j < |s| ==> IsWhitespace(s[j]);
    } else {
      assert s[|a|] == r[0];
      assert s[|a| + |r| - 1] == r[|r| - 1];
      assert t != [];
      assert t[0] == s[k] && t[|t| - 1] == s[k + |t| - 1];
      assert k == |a|;
      assert k + |t| == |a| + |r|;
      assert s[|a|..|a| + |r|] == r;
    }
  }

  /** A string with no whitespace at either end is its own trim. */
  lemma TrimPlain(s: string)
    requires s == [] || (!IsWhitespace(s[0]) && !IsWhitespace(s[|s| - 1]))
    ensures Trim(s) == s
  {
    TrimUnique(s, [], s, []);
  }

  /** `trim()` cuts `s` into whitespace, the trimmed part and whitespace. */
  lemma TrimParts(s: string) returns (a: string, b: string)
    ensures s == a + Trim(s) + b
    ensures forall j :: 0 <= j < |a| ==> IsWhitespace(a[j])
    ensures forall j :: 0 <= j < |b| ==> IsWhitespace(b[j])
  {
    var t := Trim(s);
    var k := |s| - |TrimStart(s)|;
    a, b := s[..k], s[k + |t|..];
    SliceThree(s, k, k + |t|);
  }

  lemma SliceThree(s: string, i: nat, j: nat)
    requires i <= j <= |s|
    ensures s == s[..i] + s[i..j] + s[j..]
  {
  }

  /** Whitespace stays whitespace with a space in front or behind. */
  lemma SpaceAround(a: string)
    requires forall j :: 0 <= j < |a| ==> IsWhitespace(a[j])
    ensures forall j :: 0 <= j < |a| + 1 ==> IsWhitespace((" " + a)[j])
    ensures forall j :: 0 <= j < |a| + 1 ==> IsWhitespace((a + " ")[j])
  {
  }

  lemma TrimSpaceHead(s: string)
    ensures Trim(" " + s) == Trim(s)
  {
    var a, b := TrimParts(s);
    var t := Trim(s);
    assert " " + s == (" " + a) + t + b;
    SpaceAround(a);
    TrimUnique(" " + s, " " + a, t, b);
  }

  lemma TrimSpaceTail(s: string)
    ensures Trim(s + " ") == Trim(s)
  {
    var a, b := TrimParts(s);
    var t := Trim(s);
    assert s + " " == a + t + (b + " ");
    SpaceAround(b);
    TrimUnique(s + " ", a, t, b + " ");
  }

  /** Non-empty words joined by spaces start and end with a word character. */
  lemma {:induction false} JoinedWordsEnds(ws: seq<string>)
    requires |ws| >= 1 && forall i :: 0 <= i < |ws| ==> ws[i] != []
    requires forall i, k :: 0 <= i < |ws| && 0 <= k < |ws[i]| ==> !IsWhitespace(ws[i][k])
    ensures var j := Join(ws, " "); j != [] && !IsWhitespace(j[0]) && !IsWhitespace(j[|j| - 1])
    decreases |ws|
  {
    if |ws| > 1 {
      JoinedWordsEnds(ws[1..]);
      var j, rest := Join(ws, " "), Join(ws[1..], " ");
      assert j == ws[0] + " " + rest;
      assert j[0] == ws[0][0];
      assert j[|j| - 1] == rest[|rest| - 1];
    }
  }

  /** Trimming the pieces of a split joined by spaces drops the empty end pieces: what is left is the words joined by spaces. */
  lemma {:induction false} TrimJoinedPieces(parts: seq<string>)
    requires |parts| >= 1
    requires forall i, k :: 0 <= i < |parts| && 0 <= k < |parts[i]| ==> !IsWhitespace(parts[i][k])
    requires forall i :: 0 < i < |parts| - 1 ==> parts[i] != []
    ensures Trim(Join(parts, " ")) == Join(Filter(parts, NonEmpty), " ")
    decreases |parts|
  {
    var n := |parts| - 1;
    if n > 0 && parts[0] == [] {
      TrimJoinedPieces(parts[1..]);
      TrimEmptyFirst(parts);
    } else if n > 0 && parts[n] == [] {
      TrimJoinedPieces(parts[..n]);
      TrimEmptyLast(parts);
    } else if parts[0] == [] {
      FilterSingle(parts[0], NonEmpty);
      assert parts == [parts[0]];
      TrimPlain("");
    } else {
      FilterAll(parts, NonEmpty);
      JoinedWordsEnds(parts);
      TrimPlain(Join(parts, " "));
    }
  }

  /** An empty first piece only adds a leading space, which the trim removes. */
  lemma TrimEmptyFirst(parts: seq<string>)
    requires |parts| >= 2 && parts[0] == []
    requires Trim(Join(parts[1..], " ")) == Join(Filter(parts[1..], NonEmpty), " ")
    ensures Trim(Join(parts, " ")) == Join(Filter(parts, NonEmpty), " ")
  {
    var j := Join(parts[1..], " ");
    JoinDropEmptyFirst(parts);
    TrimSpaceHead(j);
    FilterDropEmptyFirst(parts);
  }

  lemma JoinDropEmptyFirst(parts: seq<string>)
    requires |parts| >= 2 && parts[0] == []
    ensures Join(parts, " ") == " " + Join(parts[1..], " ")
  {
  }

  lemma FilterDropEmptyFirst(parts: seq<string>)
    requires |parts| >= 1 && parts[0] == []
    ensures Filter(parts, NonEmpty) == Filter(parts[1..], NonEmpty)
  {
    assert parts == [parts[0]] + parts[1..];
    FilterAppend([parts[0]], parts[1..], NonEmpty);
    FilterSingle(parts[0], NonEmpty);
  }

  /** An empty last piece only adds a trailing space, which the trim removes. */
  lemma TrimEmptyLast(parts: seq<string>)
    requires |parts| >= 2 && parts[|parts| - 1] == []
    requires var init := parts[..|parts| - 1];
      Trim(Join(init, " ")) == Join(Filter(init, NonEmpty), " ")
    ensures Trim(Join(parts, " ")) == Join(Filter(parts, NonEmpty), " ")
  {
    var j := Join(parts[..|parts| - 1], " ");
    JoinDropEmptyLast(parts);
    TrimSpaceTail(j);
    FilterDropEmptyLast(parts);
  }

  lemma JoinDropEmptyLast(parts: seq<string>)
    requires |parts| >= 2 && parts[|parts| - 1] == []
    ensures Join(parts, " ") == Join(parts[..|parts| - 1], " ") + " "
  {
    var n := |parts| - 1;
    JoinSnoc(parts[..n], parts[n], " ");
    assert parts == parts[..n] + [parts[n]];
  }

  lemma FilterDropEmptyLast(parts: seq<string>)
    requires |parts| >= 1 && parts[|parts| - 1] == []
    ensures Filter(parts, NonEmpty) == Filter(parts[..|parts| - 1], NonEmpty)
  {
  }

  /** `replace(/\s+/g, " ").trim()` is the words of the text joined by single spaces. */
  lemma CleanIsWords(s: string)
    ensures Trim(CollapseWhitespace(s)) == Join(Words(s), " ")
  {
    CollapseJoinsPieces(s);
    TrimJoinedPieces(SplitRuns(s, IsWhitespace));
  }

  /** Splitting words joined by single spaces gives the words back. */
  lemma WordsOfJoin(ws: seq<string>)
    requires forall i :: 0 <= i < |ws| ==> ws[i] != []
    requires forall i, k :: 0 <= i < |ws| && 0 <= k < |ws[i]| ==> !IsWhitespace(ws[i][k])
    ensures Words(Join(ws, " ")) == ws
  {
    if ws == [] {
      assert SplitRuns("", IsWhitespace) == [""];
      FilterSingle("", NonEmpty);
    } else {
      var j := Join(ws, " ");
      JoinIsInterleave(ws, " ");
      SplitRunsUnique(j, IsWhitespace, ws, Copies(|ws| - 1, " "));
      FilterAll(ws, NonEmpty);
    }
  }

  /** The decimal digits of `n`, as `String(n)` prints a non-negative integer. */
  function NatToString(n: nat): (r: string)
    ensures |r| >= 1
    ensures forall k :: 0 <= k < |r| ==> '0' <= r[k] <= '9'
  {
    if n < 10 then [DigitChar(n)] else NatToString(n / 10) + [DigitChar(n % 10)]
  }

  function DigitChar(d: nat): (c: char)
    requires d < 10
    ensures '0' <= c <= '9' && c as int - '0' as int == d
  {
    ('0' as int + d) as char
  }

  /** Reading the digits back: the decimal value of a digit string. */
  function DecimalValue(s: string): int
    requires forall k :: 0 <= k < |s| ==> '0' <= s[k] <= '9'
  {
    if s == [] then 0 else 10 * DecimalValue(s[..|s| - 1]) + (s[|s| - 1] as int - '0' as int)
  }

  lemma {:induction false} NatToStringRoundTrip(n: nat)
    ensures DecimalValue(NatToString(n)) == n
  {
    if n >= 10 {
      NatToStringRoundTrip(n / 10);
      var r := NatToString(n);
      assert r[..|r| - 1] == NatToString(n / 10);
    }
  }
}
