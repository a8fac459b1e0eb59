/** The Python string operations the backend relies on (str.isspace, lower,
    title, strip, split, slicing, `in`, str(int), int(digits) and the
    regular-expression runs `\d+` and `[...]+`), written out over `string`.
    Case mapping is restricted to the ASCII letters; whitespace is Python's
    own set. */
module Text {

  import opened Wrappers

  // ---------------------------------------------------------------------------
  // Character classes
  // ---------------------------------------------------------------------------

  /** Python's str.isspace(): the whitespace that split(), strip() and the
      regular-expression class \s use. */
  predicate IsSpace(c: char)
  {
    var n := c as int;
    (0x09 <= n <= 0x0D) || (0x1C <= n <= 0x20) || n == 0x85 || n == 0xA0 || n == 0x1680
    || (0x2000 <= n <= 0x200A) || n == 0x2028 || n == 0x2029 || n == 0x202F
    || n == 0x205F || n == 0x3000
  }

  predicate IsDigit(c: char) { '0' <= c <= '9' }

  // The character classes whose runs the backend scans for, passed to the
  // scanners below as predicates: non-whitespace (str.split()), the
  // regular-expression class `\d` (IsDigit; the digits are the ASCII ones),
  // and the calculator's class of digits, the characters + - * / ( ) . and
  // whitespace.
  predicate NonSpace(c: char) { !IsSpace(c) }

  predicate MathChar(c: char) { IsDigit(c) || c in "+-*/()." || IsSpace(c) }

  predicate IsUpper(c: char) { 'A' <= c <= 'Z' }

  predicate IsLower(c: char) { 'a' <= c <= 'z' }

  predicate IsLetter(c: char) { IsUpper(c) || IsLower(c) }

  function ToLower(c: char): char { if IsUpper(c) then (c as int + 32) as char else c }

  function ToUpper(c: char): char { if IsLower(c) then (c as int - 32) as char else c }

  // ---------------------------------------------------------------------------
  // Case mapping
  // ---------------------------------------------------------------------------

  /** str.lower() */
  function Lower(s: string): (r: string)
    ensures |r| == |s|
    ensures forall i :: 0 <= i < |s| ==> r[i] == ToLower(s[i])
  {
    if s == [] then [] else [ToLower(s[0])] + Lower(s[1..])
  }

  /** str.title(): a letter becomes upper case when the character before it
      is not a letter (or it is the first), lower case otherwise. */
  function Title(s: string): (r: string)
    ensures |r| == |s|
    ensures forall i :: 0 <= i < |s| ==>
      r[i] == if i == 0 || !IsLetter(s[i - 1]) then ToUpper(s[i]) else ToLower(s[i])
  {
    var r := TitleAfter(s, false);
    assert forall i :: 1 <= i < |s| ==>
      r[i] == if IsLetter(s[i - 1]) then ToLower(s[i]) else ToUpper(s[i]);
    r
  }

  function TitleAfter(s: string, afterLetter: bool): (r: string)
    ensures |r| == |s|
    ensures |s| > 0 ==> r[0] == if afterLetter then ToLower(s[0]) else ToUpper(s[0])
    ensures forall i :: 1 <= i < |s| ==>
      r[i] == if IsLetter(s[i - 1]) then ToLower(s[i]) else ToUpper(s[i])
  {
    if s == [] then []
    else [if afterLetter then ToLower(s[0]) else ToUpper(s[0])] + TitleAfter(s[1..], IsLetter(s[0]))
  }

  /** Title casing only looks at the letters' case-insensitive identity, so
      it gives the same result for a string and its lower-case form, and
      applying it twice changes nothing. */
  lemma TitleIgnoresCase(s: string)
    ensures Title(Lower(s)) == Title(s)
    ensures Title(Title(s)) == Title(s)
  {
    var l, t := Lower(s), Title(s);
    forall i | 0 <= i < |s|
      ensures Title(l)[i] == t[i] && Title(t)[i] == t[i]
    {
      CaseOf(s[i]);
      if i > 0 { CaseOf(s[i - 1]); }
    }
  }

  lemma CaseOf(c: char)
    ensures IsLetter(ToLower(c)) == IsLetter(c) && IsLetter(ToUpper(c)) == IsLetter(c)
    ensures ToUpper(ToLower(c)) == ToUpper(c) && ToLower(ToUpper(c)) == ToLower(c)
    ensures ToUpper(ToUpper(c)) == ToUpper(c) && ToLower(ToLower(c)) == ToLower(c)
  {
  }

  // ---------------------------------------------------------------------------
  // Substrings
  // ---------------------------------------------------------------------------

  /** `sub in s` */
  predicate Contains(s: string, sub: string)
    decreases |s|
  {
    if |sub| > |s| then false
    else if s[..|sub|] == sub then true
    else Contains(s[1..], sub)
  }

  /** An occurrence at any position makes `sub in s` true ... */
  lemma {:induction false} ContainsAt(s: string, sub: string, i: nat)
    requires i + |sub| <= |s| && s[i..i + |sub|] == sub
    ensures Contains(s, sub)
    decreases i
  {
    if s[..|sub|] != sub {
      assert i > 0;
      assert s[1..][i - 1..i - 1 + |sub|] == s[i..i + |sub|];
      ContainsAt(s[1..], sub, i - 1);
    }
  }

  /** ... and `sub in s` is true only at an actual occurrence. */
  lemma {:induction false} ContainsIndex(s: string, sub: string) returns (i: nat)
    requires Contains(s, sub)
    ensures i + |sub| <= |s| && s[i..i + |sub|] == sub
    decreases |s|
  {
    if s[..|sub|] == sub {
      i := 0;
    } else {
      var j := ContainsIndex(s[1..], sub);
      assert s[1..][j..j + |sub|] == s[j + 1..j + 1 + |sub|];
      i := j + 1;
    }
  }

  /** A substring of a substring is a substring. */
  lemma ContainsTransitive(s: string, w: string, v: string)
    requires Contains(s, w) && Contains(w, v)
    ensures Contains(s, v)
  {
    var i := ContainsIndex(s, w);
    var j := ContainsIndex(w, v);
    forall t | 0 <= t < |v|
      ensures v[t] == s[i + j + t]
    {
      assert v[t] == w[j + t] == s[i..i + |w|][j + t];
    }
    assert s[i + j..i + j + |v|] == v;
    ContainsAt(s, v, i + j);
  }

  /** Python's `s[:n]` for n >= 0. */
  function Prefix(s: string, n: nat): (r: string)
    ensures |r| == if |s| <= n then |s| else n
    ensures r == s[..|r|]
  {
    if |s| <= n then s else s[..n]
  }

  /** Python's `s[::-1]`. */
  function Reverse(s: string): (r: string)
    ensures |r| == |s|
    ensures forall i :: 0 <= i < |s| ==> r[i] == s[|s| - 1 - i]
  {
    if s == [] then []
    else
      var r := Reverse(s[1..]) + [s[0]];
      assert forall i :: 0 <= i < |s| - 1 ==> r[i] == s[1..][|s| - 2 - i];
      r
  }

  lemma ReverseInvolution(s: string)
    ensures Reverse(Reverse(s)) == s
  {
  }

  // ---------------------------------------------------------------------------
  // Runs of characters of one class
  // ---------------------------------------------------------------------------

  predicate All(p: char -> bool, s: string)
  {
    forall i :: 0 <= i < |s| ==> p(s[i])
  }

  /** The characters of s that satisfy p, in order. */
  function Keep(p: char -> bool, s: string): (r: string)
    ensures |r| <= |s| && All(p, r)
  {
    if s == [] then [] else (if p(s[0]) then [s[0]] else []) + Keep(p, s[1..])
  }

  lemma {:induction false} KeepAppend(p: char -> bool, a: string, b: string)
    ensures Keep(p, a + b) == Keep(p, a) + Keep(p, b)
  {
    if a != [] {
      assert (a + b)[0] == a[0];
      assert (a + b)[1..] == a[1..] + b;
      KeepAppend(p, a[1..], b);
      var h := if p(a[0]) then [a[0]] else [];
      calc {
        Keep(p, a + b);
        h + Keep(p, a[1..] + b);
        h + (Keep(p, a[1..]) + Keep(p, b));
        (h + Keep(p, a[1..])) + Keep(p, b);
      }
    } else {
      assert a + b == b;
    }
  }

  lemma {:induction false} KeepAll(p: char -> bool, s: string)
    requires All(p, s)
    ensures Keep(p, s) == s
  {
    if s != [] { KeepAll(p, s[1..]); }
  }

  lemma {:induction false} KeepNone(p: char -> bool, s: string)
    requires forall i :: 0 <= i < |s| ==> !p(s[i])
    ensures Keep(p, s) == []
  {
    if s != [] { KeepNone(p, s[1..]); }
  }

  /** The longest prefix of s whose characters satisfy p. */
  function Span(p: char -> bool, s: string): (r: string)
    ensures |r| <= |s| && r == s[..|r|] && All(p, r)
    ensures |r| < |s| ==> !p(s[|r|])
  {
    if s != [] && p(s[0]) then [s[0]] + Span(p, s[1..]) else []
  }

  /** s without its longest prefix of characters that do not satisfy p. */
  function Skip(p: char -> bool, s: string): (r: string)
    ensures |r| <= |s| && r == s[|s| - |r|..]
    ensures forall i :: 0 <= i < |s| - |r| ==> !p(s[i])
    ensures r != [] ==> p(r[0])
  {
    if s != [] && !p(s[0]) then
      var r := Skip(p, s[1..]);
      assert s[1..][|s| - 1 - |r|..] == s[|s| - |r|..];
      assert forall i :: 1 <= i < |s| - |r| ==> s[i] == s[1..][i - 1];
      r
    else s
  }

  /** The maximal runs of characters in class p, left to right: what
      `re.findall('[...]+', s)` returns for a character class, and what
      `s.split()` returns for the non-whitespace class. */
  function Runs(p: char -> bool, s: string): (rs: seq<string>)
    ensures forall k :: 0 <= k < |rs| ==> rs[k] != [] && All(p, rs[k])
  {
    RunsFrom(p, s, [])
  }

  /** The scanner behind Runs: `run` holds the characters of the run that is
      in progress. */
  function RunsFrom(p: char -> bool, s: string, run: string): (rs: seq<string>)
    requires All(p, run)
    ensures forall k :: 0 <= k < |rs| ==> rs[k] != [] && All(p, rs[k])
  {
    if s == [] then (if run == [] then [] else [run])
    else if p(s[0]) then RunsFrom(p, s[1..], run + [s[0]])
    else (if run == [] then [] else [run]) + RunsFrom(p, s[1..], [])
  }

  function Concat(ws: seq<string>): string
  {
    if ws == [] then [] else ws[0] + Concat(ws[1..])
  }

  lemma {:induction false} ConcatAppend(a: seq<string>, b: seq<string>)
    ensures Concat(a + b) == Concat(a) + Concat(b)
  {
    if a == [] {
      assert a + b == b;
    } else {
      assert (a + b)[1..] == a[1..] + b;
      ConcatAppend(a[1..], b);
    }
  }

  /** A character of one of the pieces is a character of the whole. */
  lemma {:induction false} ConcatMember(ws: seq<string>, k: nat, c: char)
    requires k < |ws| && c in ws[k]
    ensures c in Concat(ws)
  {
    if k > 0 {
      ConcatMember(ws[1..], k - 1, c);
    }
  }

  lemma {:induction false} KeepMember(p: char -> bool, s: string, c: char)
    requires c in Keep(p, s)
    ensures c in s
  {
    if s != [] && c != s[0] {
      KeepMember(p, s[1..], c);
    }
  }

  /** How many maximal runs of p-characters s holds: the positions where such
      a character follows one that is not (or starts s). */
  function RunStarts(p: char -> bool, s: string, afterRun: bool): nat
  {
    if s == [] then 0
    else (if p(s[0]) && !afterRun then 1 else 0) + RunStarts(p, s[1..], p(s[0]))
  }

  lemma {:induction false} RunsFromConcat(p: char -> bool, s: string, run: string)
    requires All(p, run)
    ensures Concat(RunsFrom(p, s, run)) == run + Keep(p, s)
  {
    if s == [] {
    } else if p(s[0]) {
      RunsFromConcat(p, s[1..], run + [s[0]]);
      assert run + [s[0]] + Keep(p, s[1..]) == run + ([s[0]] + Keep(p, s[1..]));
    } else {
      RunsFromConcat(p, s[1..], []);
      var head := if run == [] then [] else [run];
      ConcatAppend(head, RunsFrom(p, s[1..], []));
      assert Concat(head) == run by {
        if run != [] { assert head[1..] == []; }
      }
    }
  }

  lemma {:induction false} RunsFromCount(p: char -> bool, s: string, run: string)
    requires All(p, run)
    ensures |RunsFrom(p, s, run)| == RunStarts(p, s, run != []) + (if run == [] then 0 else 1)
  {
    if s != [] {
      if p(s[0]) {
        RunsFromCount(p, s[1..], run + [s[0]]);
      } else {
        RunsFromCount(p, s[1..], []);
      }
    }
  }

  lemma {:induction false} RunsFromFirst(p: char -> bool, s: string, run: string)
    requires All(p, run)
    ensures RunsFrom(p, s, run) == [] <==> run == [] && Skip(p, s) == []
    ensures RunsFrom(p, s, run) != [] ==>
      RunsFrom(p, s, run)[0] == if run == [] then Span(p, Skip(p, s)) else run + Span(p, s)
  {
    if s == [] {
      assert run + Span(p, s) == run;
    } else if p(s[0]) {
      var next := run + [s[0]];
      RunsFromFirst(p, s[1..], next);
      assert RunsFrom(p, s, run) == RunsFrom(p, s[1..], next);
      assert Span(p, s) == [s[0]] + Span(p, s[1..]);
      assert next + Span(p, s[1..]) == run + Span(p, s);
      if run == [] {
        assert Skip(p, s) == s;
      }
    } else {
      RunsFromFirst(p, s[1..], []);
      assert Skip(p, s) == Skip(p, s[1..]);
      if run != [] {
        assert Span(p, s) == [];
        assert RunsFrom(p, s, run)[0] == run;
      } else {
        assert RunsFrom(p, s, run) == RunsFrom(p, s[1..], []);
      }
    }
  }

  /** The runs are exactly the p-characters of s in order, cut at the
      characters outside p, and there are exactly as many runs as run starts:
      no run is a piece of a longer one. */
  lemma RunsPartition(p: char -> bool, s: string)
    ensures Concat(Runs(p, s)) == Keep(p, s)
    ensures |Runs(p, s)| == RunStarts(p, s, false)
  {
    RunsFromConcat(p, s, []);
    RunsFromCount(p, s, []);
  }

  /** Leading characters outside p start no run. */
  lemma {:induction false} RunsSkip(p: char -> bool, s: string)
    ensures Runs(p, s) == Runs(p, Skip(p, s))
  {
    if s != [] && !p(s[0]) {
      RunsSkip(p, s[1..]);
    }
  }

  /** A run in progress extends over the p-prefix of what follows; the
      scan then starts afresh after it. */
  lemma {:induction false} RunsFromSpan(p: char -> bool, s: string, run: string)
    requires All(p, run) && run != []
    ensures RunsFrom(p, s, run) == [run + Span(p, s)] + Runs(p, s[|Span(p, s)|..])
  {
    if s == [] {
      assert run + Span(p, s) == run;
    } else if p(s[0]) {
      var span := Span(p, s[1..]);
      RunsFromSpan(p, s[1..], run + [s[0]]);
      assert Span(p, s) == [s[0]] + span;
      assert run + [s[0]] + span == run + Span(p, s);
      assert s[1..][|span|..] == s[|Span(p, s)|..];
    } else {
      assert Span(p, s) == [] && run + Span(p, s) == run;
      assert s[|Span(p, s)|..] == s;
      assert RunsFrom(p, s, run) == [run] + RunsFrom(p, s[1..], []);
      assert Runs(p, s) == RunsFrom(p, s[1..], []);
    }
  }

  /** The runs from the front: the first maximal run after the leading
      characters outside p, then the runs of what follows it. */
  lemma {:induction false} RunsFront(p: char -> bool, s: string)
    ensures var t := Skip(p, s);
      Runs(p, s) == if t == [] then [] else [Span(p, t)] + Runs(p, t[|Span(p, t)|..])
  {
    RunsSkip(p, s);
    var t := Skip(p, s);
    if t != [] {
      assert [] + [t[0]] == [t[0]];
      assert Runs(p, t) == RunsFrom(p, t[1..], [t[0]]);
      RunsFromSpan(p, t[1..], [t[0]]);
      assert [t[0]] + Span(p, t[1..]) == Span(p, t);
      assert t[1..][|Span(p, t[1..])|..] == t[|Span(p, t)|..];
    }
  }

  /** w is the maximal p-run s[a..b]: bounded on both sides by a character
      outside p or an end of s. */
  predicate RunAt(p: char -> bool, s: string, w: string, a: nat, b: nat)
  {
    a < b <= |s| && w == s[a..b] && (a == 0 || !p(s[a - 1])) && (b == |s| || !p(s[b]))
  }

  /** The runs are maximal p-runs of s, left to right: run k is
      s[starts[k]..ends[k]], bounded on both sides by a character outside p
      or an end of s. With RunsPartition, which says they hold every
      p-character, they are exactly the maximal runs. */
  lemma {:induction false} RunsAreMaximal(p: char -> bool, s: string) returns (starts: seq<nat>, ends: seq<nat>)
    ensures |starts| == |ends| == |Runs(p, s)|
    ensures forall k :: 0 <= k < |starts| ==> RunAt(p, s, Runs(p, s)[k], starts[k], ends[k])
    ensures forall j, k :: 0 <= j < k < |starts| ==> ends[j] < starts[k]
    decreases |s|
  {
    if Runs(p, s) == [] {
      starts, ends := [], [];
    } else {
      var s0, o := RunsHead(p, s);
      var st, en := RunsAreMaximal(p, s[o..]);
      var st', en' := Shift(st, o), Shift(en, o);
      ShiftedRuns(p, s, o, Runs(p, s[o..]), st, en, st', en');
      starts, ends := ConsPositions(p, s, s0, o, Runs(p, s[o..]), st', en');
    }
  }

  /** The positions of a first run s[s0..o] followed by runs of s at the
      positions st, en, all of them behind o. */
  lemma ConsPositions(p: char -> bool, s: string, s0: nat, o: nat, tail: seq<string>, st: seq<nat>, en: seq<nat>)
    returns (starts: seq<nat>, ends: seq<nat>)
    requires s0 < o <= |s| && RunAt(p, s, s[s0..o], s0, o)
    requires |st| == |en| == |tail|
    requires forall k :: 0 <= k < |st| ==> RunAt(p, s, tail[k], st[k], en[k]) && o < st[k]
    requires forall j, k :: 0 <= j < k < |st| ==> en[j] < st[k]
    ensures |starts| == |ends| == 1 + |tail|
    ensures forall k :: 0 <= k < |starts| ==> RunAt(p, s, ([s[s0..o]] + tail)[k], starts[k], ends[k])
    ensures forall j, k :: 0 <= j < k < |starts| ==> ends[j] < starts[k]
  {
    starts, ends := [s0] + st, [o] + en;
    ConsOrdered(s0, o, st, en);
    assert forall k :: 0 < k < |starts| ==> ([s[s0..o]] + tail)[k] == tail[k - 1] && starts[k] == st[k - 1] && ends[k] == en[k - 1];
  }

  /** Runs of the suffix s[o..] that do not start it, as runs of s. */
  lemma ShiftedRuns(p: char -> bool, s: string, o: nat, tail: seq<string>, st: seq<nat>, en: seq<nat>, st': seq<nat>, en': seq<nat>)
    requires o <= |s| && |st| == |en| == |tail| == |st'| == |en'|
    requires forall k :: 0 <= k < |st| ==> RunAt(p, s[o..], tail[k], st[k], en[k])
    requires forall j, k :: 0 <= j < k < |st| ==> en[j] < st[k]
    requires forall k :: 0 <= k < |tail| ==> All(p, tail[k])
    requires o == |s| || !p(s[o])
    requires forall k :: 0 <= k < |st| ==> st'[k] == st[k] + o && en'[k] == en[k] + o
    ensures forall k :: 0 <= k < |st| ==> RunAt(p, s, tail[k], st'[k], en'[k])
    ensures forall j, k :: 0 <= j < k < |st| ==> en'[j] < st'[k]
    ensures forall k :: 0 <= k < |st'| ==> o < st'[k]
  {
    if st != [] {
      assert tail[0][0] == s[o..][st[0]];
    }
    forall k | 0 <= k < |st|
      ensures RunAt(p, s, tail[k], st'[k], en'[k])
    {
      assert 0 < st[k] by {
        if k > 0 {
          assert en[0] < st[k];
        }
      }
      ShiftedRun(p, s, o, st[k], en[k], tail[k]);
    }
  }

  /** Positions in order stay in order behind one that ends at o. */
  lemma ConsOrdered(s0: nat, o: nat, st: seq<nat>, en: seq<nat>)
    requires |st| == |en| && forall k :: 0 <= k < |st| ==> o < st[k]
    requires forall j, k :: 0 <= j < k < |st| ==> en[j] < st[k]
    ensures forall j, k :: 0 <= j < k < 1 + |st| ==> ([o] + en)[j] < ([s0] + st)[k]
  {
    forall j, k | 0 <= j < k < 1 + |st|
      ensures ([o] + en)[j] < ([s0] + st)[k]
    {
      if j > 0 {
        assert ([o] + en)[j] == en[j - 1];
      }
      assert ([s0] + st)[k] == st[k - 1];
    }
  }

  /** A run of the suffix s[o..] that does not start it, as a run of s. */
  lemma ShiftedRun(p: char -> bool, s: string, o: nat, a: nat, b: nat, w: string)
    requires o <= |s| && 0 < a && RunAt(p, s[o..], w, a, b)
    ensures RunAt(p, s, w, a + o, b + o)
  {
    SliceShift(s, o, a, b);
  }

  /** The first run is s[s0..o]: only characters outside p come before it,
      and the rest of the runs are those of s[o..]. */
  lemma {:induction false} RunsHead(p: char -> bool, s: string) returns (s0: nat, o: nat)
    requires Runs(p, s) != []
    ensures s0 < o <= |s| && Runs(p, s) == [s[s0..o]] + Runs(p, s[o..])
    ensures forall i :: 0 <= i < s0 ==> !p(s[i])
    ensures o == |s| || !p(s[o])
    decreases |s|
  {
    assert s != [];
    if p(s[0]) {
      var span := Span(p, s[1..]);
      assert [] + [s[0]] == [s[0]];
      assert Runs(p, s) == RunsFrom(p, s[1..], [s[0]]);
      RunsFromSpan(p, s[1..], [s[0]]);
      s0, o := 0, 1 + |span|;
      SuffixParts(s, s[1..], |span|);
      assert [s[0]] + span == s[s0..o];
      if o < |s| {
        assert s[o] == s[1..][|span|];
      }
    } else {
      assert Runs(p, s) == Runs(p, s[1..]);
      var a, b := RunsHead(p, s[1..]);
      s0, o := a + 1, b + 1;
      SliceShift(s, 1, a, b);
      SuffixParts(s, s[1..], b);
      forall i | 0 <= i < s0
        ensures !p(s[i])
      {
        if i > 0 {
          assert s[i] == s[1..][i - 1];
        }
      }
      if o < |s| {
        assert s[o] == s[1..][b];
      }
    }
  }

  /** The prefix and the rest of a suffix t of s as slices of s. */
  lemma SuffixParts(s: string, t: string, n: nat)
    requires |t| <= |s| && t == s[|s| - |t|..] && n <= |t|
    ensures t[..n] == s[|s| - |t|..|s| - |t| + n] && t[n..] == s[|s| - |t| + n..]
  {
  }

  /** Every position moved on by o. */
  function Shift(xs: seq<nat>, o: nat): (r: seq<nat>)
    ensures |r| == |xs| && forall k :: 0 <= k < |xs| ==> r[k] == xs[k] + o
  {
    seq(|xs|, k requires 0 <= k < |xs| => xs[k] + o)
  }

  /** A slice of the suffix s[o..] is the slice of s moved on by o. */
  lemma SliceShift(s: string, o: nat, a: nat, b: nat)
    requires a <= b && o + b <= |s|
    ensures s[o..][a..b] == s[o + a..o + b]
  {
  }

  /** Every character of a run is a character of s. */
  lemma RunsMember(p: char -> bool, s: string, k: nat, c: char)
    requires k < |Runs(p, s)| && c in Runs(p, s)[k]
    ensures c in s
  {
    RunsPartition(p, s);
    ConcatMember(Runs(p, s), k, c);
    KeepMember(p, s, c);
  }

  /** The first run is the longest p-prefix after the leading non-p
      characters. */
  lemma RunsFirst(p: char -> bool, s: string)
    ensures Runs(p, s) == [] <==> Skip(p, s) == []
    ensures Runs(p, s) != [] ==> Runs(p, s)[0] == Span(p, Skip(p, s))
  {
    RunsFromFirst(p, s, []);
  }

  /** How much whitespace s starts with. */
  function LeadingSpaces(s: string): (n: nat)
    ensures n <= |s| && forall k :: 0 <= k < n ==> IsSpace(s[k])
    ensures n < |s| ==> !IsSpace(s[n])
  {
    if s != [] && IsSpace(s[0]) then
      var n := 1 + LeadingSpaces(s[1..]);
      assert forall k :: 1 <= k < n ==> s[k] == s[1..][k - 1];
      n
    else 0
  }

  /** How much whitespace s ends with. */
  function TrailingSpaces(s: string): (n: nat)
    ensures n <= |s| && forall k :: |s| - n <= k < |s| ==> IsSpace(s[k])
    ensures n < |s| ==> !IsSpace(s[|s| - n - 1])
  {
    if s != [] && IsSpace(s[|s| - 1]) then 1 + TrailingSpaces(s[..|s| - 1]) else 0
  }

  /** str.strip(): s with the whitespace at both ends removed. */
  function Strip(s: string): (r: string)
    ensures r == [] || (!IsSpace(r[0]) && !IsSpace(r[|r| - 1]))
    ensures r == [] <==> forall k :: 0 <= k < |s| ==> IsSpace(s[k])
    ensures Padded(s, r, LeadingSpaces(s))
  {
    var i := LeadingSpaces(s);
    if i == |s| then [] else
      var j := |s| - TrailingSpaces(s);
      assert !IsSpace(s[i]);
      s[i..j]
  }

  /** s is r at position i with only whitespace before and after it. */
  predicate Padded(s: string, r: string, i: nat)
  {
    i + |r| <= |s| && r == s[i..i + |r|] &&
    (forall k :: 0 <= k < i ==> IsSpace(s[k])) && (forall k :: i + |r| <= k < |s| ==> IsSpace(s[k]))
  }

  lemma StripMember(s: string, c: char)
    requires c in Strip(s)
    ensures c in s
  {
    assert Strip(s) == s[LeadingSpaces(s)..LeadingSpaces(s) + |Strip(s)|];
  }

  /** str.split() */
  function Words(s: string): (ws: seq<string>)
    ensures forall k :: 0 <= k < |ws| ==> ws[k] != [] && forall i :: 0 <= i < |ws[k]| ==> !IsSpace(ws[k][i])
  {
    Runs(NonSpace, s)
  }

  /** `s.split()` cuts s exactly at whitespace: word k is s[starts[k]..ends[k]],
      bounded by whitespace or an end of s, the words in order. */
  lemma WordsAreMaximalRuns(s: string) returns (starts: seq<nat>, ends: seq<nat>)
    ensures |starts| == |ends| == |Words(s)|
    ensures forall k :: 0 <= k < |starts| ==> starts[k] < ends[k] <= |s| && Words(s)[k] == s[starts[k]..ends[k]]
    ensures forall k :: 0 <= k < |starts| ==> starts[k] == 0 || IsSpace(s[starts[k] - 1])
    ensures forall k :: 0 <= k < |starts| ==> ends[k] == |s| || IsSpace(s[ends[k]])
    ensures forall j, k :: 0 <= j < k < |starts| ==> ends[j] < starts[k]
  {
    starts, ends := RunsAreMaximal(NonSpace, s);
  }

  // ---------------------------------------------------------------------------
  // Decimal numbers
  // ---------------------------------------------------------------------------

  function DigitValue(c: char): nat
    requires IsDigit(c)
  {
    c as int - '0' as int
  }

  function DigitChar(d: nat): (c: char)
    requires d < 10
    ensures IsDigit(c) && DigitValue(c) == d
  {
    ('0' as int + d) as char
  }

  /** int(s) for a string of ASCII digits. */
  function ParseDigits(s: string): nat
    requires All(IsDigit, s)
  {
    if s == [] then 0 else 10 * ParseDigits(s[..|s| - 1]) + DigitValue(s[|s| - 1])
  }

  /** str(n) for n >= 0: decimal digits, no leading zero. */
  function NatToString(n: nat): (r: string)
    ensures r != [] && All(IsDigit, r)
    ensures |r| > 1 ==> r[0] != '0'
  {
    if n < 10 then [DigitChar(n)] else NatToString(n / 10) + [DigitChar(n % 10)]
  }

  /** str(n) */
  function IntToString(n: int): string
  {
    if n < 0 then "-" + NatToString(-n) else NatToString(n)
  }

  /** Reading back what str() wrote gives the number again. */
  lemma {:induction false} ParseNatToString(n: nat)
    ensures ParseDigits(NatToString(n)) == n
  {
    if n >= 10 {
      var s := NatToString(n);
      assert s[..|s| - 1] == NatToString(n / 10);
      ParseNatToString(n / 10);
    }
  }

  /** str() is injective, so distinct numbers print differently. */
  lemma IntToStringInjective(a: int, b: int)
    requires IntToString(a) == IntToString(b)
    ensures a == b
  {
    if a >= 0 && b >= 0 {
      ParseNatToString(a);
      ParseNatToString(b);
    } else if a < 0 && b < 0 {
      assert NatToString(-a) == IntToString(a)[1..];
      assert NatToString(-b) == IntToString(b)[1..];
      ParseNatToString(-a);
      ParseNatToString(-b);
    }
  }

  /** `int(re.findall(r'\d+', s)[0])`, or None when s holds no digit. */
  function FirstNumber(s: string): Option<nat>
  {
    var rs := Runs(IsDigit, s);
    if rs == [] then None else Some(ParseDigits(rs[0]))
  }

  /** FirstNumber is None exactly when s holds no digit, and otherwise the
      value of the first maximal run of digits. */
  lemma FirstNumberIsFirstRun(s: string)
    ensures FirstNumber(s).None? <==> forall i :: 0 <= i < |s| ==> !IsDigit(s[i])
    ensures FirstNumber(s).Some? ==> exists i, j :: (0 <= i < j <= |s| &&
      (forall k :: 0 <= k < i ==> !IsDigit(s[k])) &&
      All(IsDigit, s[i..j]) && (j < |s| ==> !IsDigit(s[j])) &&
      FirstNumber(s).value == ParseDigits(s[i..j]))
  {
    RunsFirst(IsDigit, s);
    var rs := Runs(IsDigit, s);
    if rs != [] {
      var t := Skip(IsDigit, s);
      var w := Span(IsDigit, t);
      var i := |s| - |t|;
      assert rs[0] == w && s[i..i + |w|] == w;
      assert i + |w| < |s| ==> s[i + |w|] == t[|w|];
    }
  }

}
