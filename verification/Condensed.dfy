/**
 The condensed status line of fio: runs of equal letters become the letter and its count in
 parentheses, separated by commas.
 */
module Condensed {
  import opened Options

  datatype Run = Run(letter: char, nr: nat)

  // ---- Runs ----

  /** Where the characters from i on stop being c. */
  function RunEnd(s: string, c: char, i: nat): (e: nat)
    requires i <= |s|
    ensures i <= e <= |s|
    ensures forall k :: i <= k < e ==> s[k] == c
    ensures e < |s| ==> s[e] != c
    decreases |s| - i
  {
    if i == |s| || s[i] != c then i else RunEnd(s, c, i + 1)
  }

  /** The runs of equal characters from i on. */
  function Runs(s: string, i: nat): seq<Run>
    requires i <= |s|
    decreases |s| - i
  {
    if i == |s| then [] else
      var e := RunEnd(s, s[i], i + 1);
      [Run(s[i], e - i)] + Runs(s, e)
  }

  function Repeat(c: char, n: nat): (r: string)
    ensures |r| == n && forall i :: 0 <= i < n ==> r[i] == c
  {
    if n == 0 then "" else [c] + Repeat(c, n - 1)
  }

  function Expand(rs: seq<Run>): string
  {
    if rs == [] then "" else Repeat(rs[0].letter, rs[0].nr) + Expand(rs[1..])
  }

  /** Every run counts at least one letter, and neighbours have different letters. */
  predicate Maximal(rs: seq<Run>)
  {
    && (forall i :: 0 <= i < |rs| ==> rs[i].nr >= 1)
    && (forall i :: 0 <= i < |rs| - 1 ==> rs[i].letter != rs[i + 1].letter)
  }

  /** The runs of a string spell it out again. */
  lemma {:induction false} RunsExpand(s: string, i: nat)
    requires i <= |s|
    ensures Expand(Runs(s, i)) == s[i..]
    decreases |s| - i
  {
    if i < |s| {
      var e := RunEnd(s, s[i], i + 1);
      RunsExpand(s, e);
      var rs := Runs(s, e);
      assert ([Run(s[i], e - i)] + rs)[1..] == rs;
      assert Repeat(s[i], e - i) == s[i..e];
      assert s[i..] == s[i..e] + s[e..];
    }
  }

  lemma {:induction false} RunsMaximal(s: string, i: nat)
    requires i <= |s|
    ensures Maximal(Runs(s, i))
    ensures i < |s| ==> Runs(s, i) != [] && Runs(s, i)[0].letter == s[i]
    decreases |s| - i
  {
    if i < |s| {
      var e := RunEnd(s, s[i], i + 1);
      RunsMaximal(s, e);
      var rs := Runs(s, e);
      var all := [Run(s[i], e - i)] + rs;
      forall k | 0 <= k < |all| - 1 ensures all[k].letter != all[k + 1].letter {
        if k > 0 {
          assert all[k] == rs[k - 1] && all[k + 1] == rs[k];
        }
      }
    }
  }

  // ---- Text ----

  function Digit(d: nat): char
    requires d < 10
  {
    (d + '0' as int) as char
  }

  predicate IsDigit(c: char) { '0' <= c <= '9' }

  function Decimal(n: nat): string
  {
    if n < 10 then [Digit(n)] else Decimal(n / 10) + [Digit(n % 10)]
  }

  function Group(r: Run): string { [r.letter] + "(" + Decimal(r.nr) + ")," }

  /** The groups one after another, each with its comma. */
  function Groups(rs: seq<Run>): string
  {
    if rs == [] then "" else Groups(rs[..|rs| - 1]) + Group(rs[|rs| - 1])
  }

  /** The condensed string: the groups without the last comma. */
  function Condensation(s: string): string
  {
    var t := Groups(Runs(s, 0));
    if t == "" then "" else t[..|t| - 1]
  }

  // ---- Reading it back ----

  /** The number at the start of t, continuing `n`, and what follows it. */
  function Number(t: string, n: nat): (nat, string)
  {
    if t == "" || !IsDigit(t[0]) then (n, t)
    else Number(t[1..], 10 * n + (t[0] as int - '0' as int))
  }

  lemma {:induction false} NumberShorter(t: string, n: nat)
    ensures |Number(t, n).1| <= |t|
  {
    if t != "" && IsDigit(t[0]) {
      NumberShorter(t[1..], 10 * n + (t[0] as int - '0' as int));
    }
  }

  /** Parse groups that each end with a comma. */
  function Parse(t: string): Option<seq<Run>>
    decreases |t|
  {
    if t == "" then Some([])
    else if |t| < 2 || t[1] != '(' then None
    else
      var (n, rest) := Number(t[2..], 0);
      NumberShorter(t[2..], 0);
      if |rest| < 2 || rest[0] != ')' || rest[1] != ',' then None
      else
        match Parse(rest[2..])
        case None => None
        case Some(rs) => Some([Run(t[0], n)] + rs)
  }

  /** Read a condensed string back. */
  function Decode(t: string): Option<string>
  {
    match Parse(if t == "" then t else t + ",")
    case None => None
    case Some(rs) => Some(Expand(rs))
  }

  lemma {:induction false} NumberReads(n: nat, u: string)
    ensures Number(Decimal(n) + u, 0) == Number(u, n)
  {
    var t := Decimal(n) + u;
    if n < 10 {
      assert t[0] == Digit(n) && t[1..] == u;
    } else {
      var v := [Digit(n % 10)] + u;
      NumberReads(n / 10, v);
      assert t == Decimal(n / 10) + v;
      assert v[1..] == u;
    }
  }

  lemma GroupReads(r: Run, u: string)
    ensures Parse(Group(r) + u) ==
            match Parse(u)
            case None => None
            case Some(rs) => Some([r] + rs)
  {
    var t := Group(r) + u;
    var v := ")," + u;
    assert t[0] == r.letter && t[1] == '(' && t[2..] == Decimal(r.nr) + v;
    NumberReads(r.nr, v);
    assert Number(v, r.nr) == (r.nr, v);
    assert v[2..] == u;
  }

  lemma {:induction false} GroupsRead(rs: seq<Run>, u: string)
    ensures Parse(Groups(rs) + u) ==
            match Parse(u)
            case None => None
            case Some(us) => Some(rs + us)
  {
    if rs == [] {
      assert Groups(rs) + u == u;
      if Parse(u).Some? {
        assert rs + Parse(u).value == Parse(u).value;
      }
    } else {
      var last := |rs| - 1;
      var v := Group(rs[last]) + u;
      assert Groups(rs) + u == Groups(rs[..last]) + v;
      GroupsRead(rs[..last], v);
      GroupReads(rs[last], u);
      if Parse(u).Some? {
        assert rs[..last] + ([rs[last]] + Parse(u).value) == rs + Parse(u).value;
      }
    }
  }

  lemma GroupsEnd(rs: seq<Run>)
    requires rs != []
    ensures |Groups(rs)| > 1 && Groups(rs)[|Groups(rs)| - 1] == ','
  {
    var g := Group(rs[|rs| - 1]);
    assert |g| > 1 && g[|g| - 1] == ',';
  }

  lemma RunOf(s: string, i: nat, e: nat)
    requires i < e <= |s| && (forall k :: i <= k < e ==> s[k] == s[i]) && (e < |s| ==> s[e] != s[i])
    ensures Runs(s, i) == [Run(s[i], e - i)] + Runs(s, e)
  {
    RunEndIs(s, s[i], i + 1, e);
  }

  lemma {:induction false} RunEndIs(s: string, c: char, i: nat, e: nat)
    requires i <= e <= |s| && (forall k :: i <= k < e ==> s[k] == c) && (e < |s| ==> s[e] != c)
    ensures RunEnd(s, c, i) == e
    decreases e - i
  {
    if i < e {
      RunEndIs(s, c, i + 1, e);
    }
  }

  /** A status line as it is shown. */
  lemma StatusLine()
    ensures Condensation("RRW") == "R(2),W(1)"
  {
    var s := "RRW";
    RunOf(s, 0, 2);
    RunOf(s, 2, 3);
    var rs := [Run('R', 2), Run('W', 1)];
    assert Runs(s, 0) == rs;
    assert rs[..1] == [Run('R', 2)] && rs[..1][..0] == [];
    assert Decimal(2) == "2" && Decimal(1) == "1";
    assert Groups(rs[..1]) == "" + Group(rs[0]) == "R(2),";
    assert Groups(rs) == "R(2)," + "W(1),";
  }

  /** Decoding the condensed string gives the original back, for every string. */
  lemma RoundTrip(s: string)
    ensures Decode(Condensation(s)) == Some(s)
  {
    var rs := Runs(s, 0);
    var t := Groups(rs);
    RunsExpand(s, 0);
    GroupsRead(rs, "");
    assert t + "" == t && rs + [] == rs;
    if s != "" {
      GroupsEnd(rs);
      assert t[..|t| - 1] + "," == t;
    }
  }

  // ---- The size of the output ----

  lemma {:induction false} DecimalSize(n: nat)
    requires n >= 1
    ensures |Decimal(n)| <= n
  {
    if n >= 10 {
      DecimalSize(n / 10);
    }
  }

  lemma {:induction false} ExpandLast(rs: seq<Run>)
    requires rs != []
    ensures |Expand(rs)| == |Expand(rs[..|rs| - 1])| + rs[|rs| - 1].nr
  {
    if |rs| > 1 {
      var front := rs[..|rs| - 1];
      ExpandLast(rs[1..]);
      assert rs[1..][..|rs| - 2] == front[1..] && front[0] == rs[0];
    } else {
      assert rs[1..] == [] && rs[..0] == [];
    }
  }

  lemma {:induction false} GroupsSize(rs: seq<Run>)
    requires forall i :: 0 <= i < |rs| ==> rs[i].nr >= 1
    ensures |Groups(rs)| <= 5 * |Expand(rs)|
  {
    if rs != [] {
      var last := |rs| - 1;
      GroupsSize(rs[..last]);
      ExpandLast(rs);
      DecimalSize(rs[last].nr);
    }
  }

  /** With its commas, and so with its terminator, the condensed string fits in five characters for
      each character of the original. */
  lemma FitsBuffer(s: string)
    ensures |Groups(Runs(s, 0))| <= 5 * |s|
    ensures s != "" ==> |Condensation(s)| + 1 <= 5 * |s|
  {
    RunsMaximal(s, 0);
    RunsExpand(s, 0);
    GroupsSize(Runs(s, 0));
    if s != "" {
      GroupsEnd(Runs(s, 0));
    }
  }

  // ---- The loops ----

  lemma GroupsPlus(rs: seq<Run>, r: Run)
    ensures Groups(rs + [r]) == Groups(rs) + Group(r)
  {
    assert (rs + [r])[..|rs + [r]| - 1] == rs;
  }

  /** The runs up to i are written, each with its comma. */
  predicate Written(s: string, i: nat, rs: seq<Run>, out: string)
  {
    i <= |s| && Runs(s, 0) == rs + Runs(s, i) && out == Groups(rs) && (i > 0 ==> rs != [])
  }

  /** The characters from `start` up to i are the next run. */
  lemma NextRun(s: string, rs: seq<Run>, start: nat, i: nat, out: string)
    requires Written(s, start, rs, out) && start < i <= |s|
    requires (forall k :: start <= k < i ==> s[k] == s[start]) && (i < |s| ==> s[i] != s[start])
    ensures Written(s, i, rs + [Run(s[start], i - start)], out + Group(Run(s[start], i - start)))
  {
    var r := Run(s[start], i - start);
    assert RunEnd(s, s[start], start + 1) == i;
    assert rs + ([r] + Runs(s, i)) == rs + [r] + Runs(s, i);
    GroupsPlus(rs, r);
  }

  lemma AllWritten(s: string, rs: seq<Run>, out: string)
    requires Written(s, |s|, rs, out) && s != ""
    ensures out != "" && out[..|out| - 1] == Condensation(s)
  {
    assert rs + [] == rs;
    GroupsEnd(rs);
  }

  /** update_condensed_str: walk over the runs, write each group, drop the last comma. */
  method Condense(s: string) returns (out: string)
    requires '\0' !in s
    ensures out == Condensation(s)
  {
    var text := s + ['\0'];
    out := "";
    if text[0] != '\0' {
      var i: nat := 0;
      ghost var rs := [];
      assert [] + Runs(s, 0) == Runs(s, 0);
      while text[i] != '\0'
        invariant Written(s, i, rs, out)
        decreases |s| - i
      {
        var nr := 1;
        ghost var start, before := i, out;
        out := out + [text[i]];
        i := i + 1;
        while text[i - 1] == text[i]
          invariant start < i <= |s| && nr == i - start
          invariant forall k :: start <= k < i ==> s[k] == s[start]
          decreases |s| - i
        {
          i := i + 1;
          nr := nr + 1;
        }
        NextRun(s, rs, start, i, before);
        out := out + "(" + Decimal(nr) + "),";
        assert out == before + Group(Run(s[start], nr));
        rs := rs + [Run(s[start], nr)];
      }
      AllWritten(s, rs, out);
      out := out[..|out| - 1];
    }
  }
}
