/**
  Key formats: literal pieces with a text between each two, placeholders filled in order.
  When two lists of texts give one key.
 */
module Formats {
  /** Pieces p0 .. pn around n texts. */
  function Filled(pieces: seq<string>, texts: seq<string>): string
    requires |pieces| == |texts| + 1
  {
    if texts == [] then pieces[0] else pieces[0] + texts[0] + Filled(pieces[1..], texts[1..])
  }

  /** One side is ahead of the other by a text: x is what the left lacks, y what the right lacks. */
  predicate Ahead(x: string, y: string) { x == "" || y == "" }

  /**
    The texts of one list can be shifted into those of the other across the pieces.  With the
    left lacking x and the right lacking y, each text and the piece before it hand on what is
    lacking then; at the end nothing is.
   */
  ghost predicate Shifts(pieces: seq<string>, s: seq<string>, t: seq<string>, x: string, y: string)
    requires |pieces| == |s| + 1 == |t| + 1
    decreases |s|
  {
    if s == [] then x == y
    else exists x', y' ::
           Ahead(x', y') && y + pieces[0] + s[0] + x' == x + pieces[0] + t[0] + y'
           && Shifts(pieces[1..], s[1..], t[1..], x', y')
  }

  // ----- two keys in step -----

  lemma Chain(a: string, b: string, c: string, d: string)
    ensures a + (b + c + d) == (a + b + c) + d
  {}

  /** Equal wholes: the longer beginning is ahead of the shorter by what its rest lacks. */
  lemma Lead(l: string, f: string, r: string, g: string) returns (x: string, y: string)
    requires l + f == r + g
    ensures Ahead(x, y) && l + x == r + y && y + f == x + g
  {
    var whole := l + f;
    assert whole[..|l|] == l && whole[|l|..] == f && whole[..|r|] == r && whole[|r|..] == g;
    if |l| <= |r| {
      x, y := whole[|l|..|r|], "";
      assert r == l + x && f == x + g;
    } else {
      x, y := "", whole[|r|..|l|];
      assert l == r + y && g == y + f;
    }
  }

  lemma Follow(l: string, f: string, r: string, g: string, x: string, y: string)
    requires Ahead(x, y) && l + x == r + y && y + f == x + g
    ensures l + f == r + g
  {
    if y == "" {
      assert f == x + g && l + x == r;
      assert l + (x + g) == (l + x) + g;
    } else {
      assert g == y + f && l == r + y;
      assert r + (y + f) == (r + y) + f;
    }
  }

  /** Two filled formats, one ahead of the other, are equal exactly when the texts shift. */
  lemma {:induction false} ShiftsIff(pieces: seq<string>, s: seq<string>, t: seq<string>, x: string, y: string)
    requires |pieces| == |s| + 1 == |t| + 1 && Ahead(x, y)
    ensures y + Filled(pieces, s) == x + Filled(pieces, t) <==> Shifts(pieces, s, t, x, y)
    decreases |s|
  {
    if s == [] {
      SameEnd(y, x, pieces[0]);
    } else {
      var rest, f, g := pieces[1..], Filled(pieces[1..], s[1..]), Filled(pieces[1..], t[1..]);
      var l, r := y + pieces[0] + s[0], x + pieces[0] + t[0];
      Chain(y, pieces[0], s[0], f);
      Chain(x, pieces[0], t[0], g);
      if l + f == r + g {
        var x', y' := Lead(l, f, r, g);
        ShiftsIff(rest, s[1..], t[1..], x', y');
        assert Shifts(pieces, s, t, x, y);
      }
      if Shifts(pieces, s, t, x, y) {
        var x', y' :| Ahead(x', y') && l + x' == r + y' && Shifts(rest, s[1..], t[1..], x', y');
        ShiftsIff(rest, s[1..], t[1..], x', y');
        Follow(l, f, r, g, x', y');
      }
    }
  }

  lemma SameEnd(a: string, b: string, c: string)
    ensures a + c == b + c <==> a == b
  {
    if a + c == b + c {
      assert a == (a + c)[..|a|] && b == (b + c)[..|b|];
    }
  }

  lemma SameStart(a: string, b: string, c: string)
    ensures c + a == c + b <==> a == b
  {
    if c + a == c + b {
      assert a == (c + a)[|c|..] && b == (c + b)[|c|..];
    }
  }

  /** The exact condition, for any number of placeholders: two keys are equal if and only if the texts shift. */
  lemma KeysEqualIff(pieces: seq<string>, s: seq<string>, t: seq<string>)
    requires |pieces| == |s| + 1 == |t| + 1
    ensures Filled(pieces, s) == Filled(pieces, t) <==> Shifts(pieces, s, t, "", "")
  {
    ShiftsIff(pieces, s, t, "", "");
    assert "" + Filled(pieces, s) == Filled(pieces, s) && "" + Filled(pieces, t) == Filled(pieces, t);
  }

  // ----- one placeholder, two, and more -----

  /** The format tells any two lists of its texts apart. */
  ghost predicate TellsApart(pieces: seq<string>) {
    forall s, t :: |s| == |t| == |pieces| - 1 && Filled(pieces, s) == Filled(pieces, t) ==> s == t
  }

  lemma FillOne(pieces: seq<string>, s: string)
    requires |pieces| == 2
    ensures Filled(pieces, [s]) == pieces[0] + (s + pieces[1])
  {
    assert pieces[0] + s + pieces[1] == pieces[0] + (s + pieces[1]);
  }

  lemma OneTellsApart(pieces: seq<string>)
    requires |pieces| == 2
    ensures TellsApart(pieces)
  {
    forall s, t | |s| == |t| == 1 && Filled(pieces, s) == Filled(pieces, t) ensures s == t {
      assert s == [s[0]] && t == [t[0]];
      FillOne(pieces, s[0]);
      FillOne(pieces, t[0]);
      SameStart(s[0] + pieces[1], t[0] + pieces[1], pieces[0]);
      SameEnd(s[0], t[0], pieces[1]);
    }
  }

  lemma Regroup(p: string, a: string, q: string, b: string, r: string)
    ensures p + a + (q + b + r) == p + (a + q + b) + r
  {
    assert p + a + (q + b + r) == p + a + q + b + r;
  }

  lemma FillTwo(pieces: seq<string>, a: string, b: string, rest: seq<string>)
    requires |pieces| == |rest| + 3
    ensures Filled(pieces, [a, b] + rest) == pieces[0] + (a + pieces[1] + b) + Filled(pieces[2..], rest)
  {
    FillFirst(pieces, a, [b] + rest);
    FillFirst(pieces[1..], b, rest);
    assert [a, b] + rest == [a] + ([b] + rest) && pieces[1..][1..] == pieces[2..];
    Regroup(pieces[0], a, pieces[1], b, Filled(pieces[2..], rest));
  }

  lemma FillFirst(pieces: seq<string>, a: string, rest: seq<string>)
    requires |pieces| == |rest| + 2
    ensures Filled(pieces, [a] + rest) == pieces[0] + a + Filled(pieces[1..], rest)
  {
    assert ([a] + rest)[1..] == rest;
  }

  /** No format with two placeholders or more tells all its texts apart. */
  lemma MoreNeverTellApart(pieces: seq<string>)
    requires |pieces| >= 3
    ensures !TellsApart(pieces)
  {
    var rest := seq(|pieces| - 3, _ => "");
    var p := pieces[1];
    var s, t := ["x" + p + "y", "z"] + rest, ["x", "y" + p + "z"] + rest;
    FillTwo(pieces, "x" + p + "y", "z", rest);
    FillTwo(pieces, "x", "y" + p + "z", rest);
    assert "x" + p + "y" + p + "z" == "x" + p + ("y" + p + "z");
    assert Filled(pieces, s) == Filled(pieces, t) && |s| == |t| == |pieces| - 1;
    assert s[0] != t[0] by { assert |s[0]| > |t[0]|; }
  }

  /** So formats tell all their texts apart exactly when they have at most one placeholder. */
  lemma TellsApartIff(pieces: seq<string>)
    requires pieces != []
    ensures TellsApart(pieces) <==> |pieces| <= 2
  {
    if |pieces| == 1 {
      assert forall s: seq<string>, t: seq<string> :: |s| == |t| == 0 ==> s == t;
    } else if |pieces| == 2 {
      OneTellsApart(pieces);
    } else {
      MoreNeverTellApart(pieces);
    }
  }

  /** A part of the second text moves to the first across the piece between. */
  ghost predicate Slides(a: string, p: string, b: string, c: string, d: string) {
    exists u, v :: Slide(a, p, b, c, d, u, v)
  }

  predicate Slide(a: string, p: string, b: string, c: string, d: string, u: string, v: string) {
    c == a + u && b == v + d && p + v == u + p
  }

  lemma SlideFound(a: string, p: string, b: string, c: string, d: string)
    requires |a| <= |c| && a + p + b == c + p + d
    ensures Slides(a, p, b, c, d)
  {
    var u, v := c[|a|..], b[..|b| - |d|];
    Cut(a, p, b, c, d);
    assert Slide(a, p, b, c, d, u, v);
  }

  lemma Cut(a: string, p: string, b: string, c: string, d: string)
    requires |a| <= |c| && a + p + b == c + p + d
    ensures |d| <= |b|
    ensures c == a + c[|a|..] && b == b[..|b| - |d|] + d && p + b[..|b| - |d|] == c[|a|..] + p
  {
    var whole := a + p + b;
    var m := |whole| - |d|;
    assert whole[..|c|] == c && whole[..|a|] == a && whole[m..] == d && whole[|a| + |p|..] == b;
    assert whole[|a|..m] == p + b[..|b| - |d|];
    assert whole[|a|..m] == c[|a|..] + p;
  }

  lemma SlideKeeps(a: string, p: string, b: string, c: string, d: string, u: string, v: string)
    requires Slide(a, p, b, c, d, u, v)
    ensures a + p + b == c + p + d
  {
    assert a + p + (v + d) == a + (p + v) + d;
    assert a + u + p + d == a + (u + p) + d;
  }

  lemma TwoEqualIff(pieces: seq<string>, s: seq<string>, t: seq<string>)
    requires |pieces| == 3 && |s| == |t| == 2 && |s[0]| <= |t[0]|
    ensures Filled(pieces, s) == Filled(pieces, t) <==> Slides(s[0], pieces[1], s[1], t[0], t[1])
  {
    hide Filled, Slide;
    var p := pieces[1];
    FillPair(pieces, s);
    FillPair(pieces, t);
    SameStart(s[0] + p + s[1] + pieces[2], t[0] + p + t[1] + pieces[2], pieces[0]);
    SameEnd(s[0] + p + s[1], t[0] + p + t[1], pieces[2]);
    if s[0] + p + s[1] == t[0] + p + t[1] {
      SlideFound(s[0], p, s[1], t[0], t[1]);
    }
    if u, v :| Slide(s[0], p, s[1], t[0], t[1], u, v) {
      SlideKeeps(s[0], p, s[1], t[0], t[1], u, v);
    }
  }

  lemma FillPair(pieces: seq<string>, s: seq<string>)
    requires |pieces| == 3 && |s| == 2
    ensures Filled(pieces, s) == pieces[0] + (s[0] + pieces[1] + s[1] + pieces[2])
  {
    assert s == [s[0], s[1]] + [];
    FillTwo(pieces, s[0], s[1], []);
    assert pieces[0] + (s[0] + pieces[1] + s[1]) + pieces[2] == pieces[0] + (s[0] + pieces[1] + s[1] + pieces[2]);
  }

  /** Each inner piece begins with a character that is in none of the texts. */
  predicate Separated(pieces: seq<string>, texts: seq<string>) {
    forall i, j :: 0 < i < |pieces| - 1 && 0 <= j < |texts| ==> pieces[i] != "" && pieces[i][0] !in texts[j]
  }

  /** Up to the first place of a character that neither has, two texts are the same. */
  lemma FirstMark(a: string, f: string, b: string, g: string, c: char)
    requires a + [c] + f == b + [c] + g && c !in a && c !in b
    ensures a == b && f == g
  {
    var whole := a + [c] + f;
    assert whole[|a|] == c && whole[|b|] == c;
    forall k | 0 <= k < |a| ensures whole[k] != c {
      assert whole[k] == a[k];
    }
    forall k | 0 <= k < |b| ensures whole[k] != c {
      assert whole[k] == b[k];
    }
    assert a == whole[..|a|] && b == whole[..|b|] && f == whole[|a| + 1..] && g == whole[|b| + 1..];
  }

  /** Separated texts are told apart, whatever their number. */
  lemma {:induction false} SeparatedTellApart(pieces: seq<string>, s: seq<string>, t: seq<string>)
    requires |pieces| == |s| + 1 == |t| + 1 && Separated(pieces, s) && Separated(pieces, t)
    ensures Filled(pieces, s) == Filled(pieces, t) <==> s == t
    decreases |s|
  {
    if Filled(pieces, s) == Filled(pieces, t) && |s| == 1 {
      OneTellsApart(pieces);
    } else if Filled(pieces, s) == Filled(pieces, t) && s != [] {
      var p, rest, n := pieces[1], pieces[2..], |s|;
      assert s == [s[0], s[1]] + s[2..] && t == [t[0], t[1]] + t[2..];
      FillTwo(pieces, s[0], s[1], s[2..]);
      FillTwo(pieces, t[0], t[1], t[2..]);
      var f, g := s[1] + Filled(rest, s[2..]), t[1] + Filled(rest, t[2..]);
      assert p == [p[0]] + p[1..];
      Marked(pieces[0], s[0], p, s[1], Filled(rest, s[2..]));
      Marked(pieces[0], t[0], p, t[1], Filled(rest, t[2..]));
      SameStart(s[0] + [p[0]] + (p[1..] + f), t[0] + [p[0]] + (p[1..] + g), pieces[0]);
      FirstMark(s[0], p[1..] + f, t[0], p[1..] + g, p[0]);
      SameStart(f, g, p[1..]);
      FillRest(pieces, s);
      FillRest(pieces, t);
      SameStart(f, g, p);
      SeparatedTellApart(pieces[1..], s[1..], t[1..]);
      assert s == [s[0]] + s[1..] && t == [t[0]] + t[1..];
    }
  }

  lemma Marked(p0: string, a: string, p: string, b: string, rest: string)
    requires p != ""
    ensures p0 + (a + p + b) + rest == p0 + (a + [p[0]] + (p[1..] + (b + rest)))
  {
    assert p == [p[0]] + p[1..];
  }

  lemma FillRest(pieces: seq<string>, s: seq<string>)
    requires |pieces| == |s| + 1 && |s| >= 2
    ensures Filled(pieces[1..], s[1..]) == pieces[1] + (s[1] + Filled(pieces[2..], s[2..]))
  {
    assert pieces[1..][1..] == pieces[2..] && s[1..][1..] == s[2..];
    var f := Filled(pieces[2..], s[2..]);
    assert pieces[1] + s[1] + f == pieces[1] + (s[1] + f);
  }
}
