/**
  Python's `pathlib.PurePosixPath`, as far as the uploader uses it: building a
  path from the string of a file-system event, taking its `parent` and its
  `name`, and joining a child name with `/`.
*/
module Paths {
  import opened Text

  /**
    A path as pathlib keeps it: whether it is anchored at the root, and its
    components, none of which is empty or ".".
  */
  datatype Path = Path(absolute: bool, parts: seq<string>)

  /** A component that pathlib keeps when it parses a string. */
  predicate Meaningful(piece: string) {
    piece != "" && piece != "."
  }

  /** The pieces of `s` between its '/' characters, empty pieces included. */
  function SplitSlash(s: string): (pieces: seq<string>)
    ensures |pieces| > 0
    ensures forall i :: 0 <= i < |pieces| ==> '/' !in pieces[i]
  {
    if |s| == 0 then [""]
    else
      var init := SplitSlash(s[..|s| - 1]);
      var c := s[|s| - 1];
      if c == '/' then init + [""] else AppendToLast(init, c)
  }

  /** The pieces with `c` added to the end of the last one. */
  function AppendToLast(pieces: seq<string>, c: char): seq<string>
    requires |pieces| > 0
  {
    pieces[..|pieces| - 1] + [pieces[|pieces| - 1] + [c]]
  }

  lemma AppendToLastConcat(left: seq<string>, right: seq<string>, c: char)
    requires |right| > 0
    ensures AppendToLast(left + right, c) == left + AppendToLast(right, c)
  {
    assert (left + right)[..|left + right| - 1] == left + right[..|right| - 1];
  }

  /** The pieces put back together, with '/' between neighbours. */
  function JoinSlash(pieces: seq<string>): string
    requires |pieces| > 0
  {
    if |pieces| == 1 then pieces[0]
    else JoinSlash(pieces[..|pieces| - 1]) + "/" + pieces[|pieces| - 1]
  }

  /** How one more character extends the split. */
  lemma SplitSlashSnoc(s: string, c: char)
    ensures var init := SplitSlash(s);
      SplitSlash(s + [c]) == if c == '/' then init + [""] else AppendToLast(init, c)
  {
    assert (s + [c])[..|s|] == s;
  }

  /** Splitting at '/' loses nothing: joining the pieces gives the string back. */
  lemma {:induction false} JoinSplitSlash(s: string)
    ensures JoinSlash(SplitSlash(s)) == s
  {
    if |s| > 0 {
      var rest, c := s[..|s| - 1], s[|s| - 1];
      assert s == rest + [c];
      var init := SplitSlash(rest);
      JoinSplitSlash(rest);
      SplitSlashSnoc(rest, c);
      var k := |init|;
      if c == '/' {
        assert (init + [""])[..k] == init;
      } else if k > 1 {
        var pieces := init[..k - 1] + [init[k - 1] + [c]];
        assert pieces[..k - 1] == init[..k - 1];
        assert JoinSlash(pieces) == JoinSlash(init[..k - 1]) + "/" + (init[k - 1] + [c]);
      }
    }
  }

  /** A string without '/' is a single piece. */
  lemma {:induction false} SplitSlashSingle(s: string)
    requires '/' !in s
    ensures SplitSlash(s) == [s]
  {
    if |s| > 0 {
      var rest, c := s[..|s| - 1], s[|s| - 1];
      assert s == rest + [c];
      assert '/' !in rest by {
        forall i | 0 <= i < |rest| ensures rest[i] != '/' { assert rest[i] == s[i]; }
      }
      SplitSlashSingle(rest);
      SplitSlashSnoc(rest, c);
    }
  }

  /** Splitting `a + "/" + b` splits `a` and `b` separately. */
  lemma {:induction false} SplitSlashConcat(a: string, b: string)
    ensures SplitSlash(a + "/" + b) == SplitSlash(a) + SplitSlash(b)
    decreases |b|
  {
    if |b| == 0 {
      assert a + "/" + b == a + ['/'];
      SplitSlashSnoc(a, '/');
      assert SplitSlash(b) == [""];
    } else {
      var b', c := b[..|b| - 1], b[|b| - 1];
      assert b == b' + [c];
      var front := a + "/" + b';
      assert a + "/" + b == front + [c];
      SplitSlashConcat(a, b');
      SplitSlashSnoc(front, c);
      SplitSlashSnoc(b', c);
      var left, right := SplitSlash(a), SplitSlash(b');
      if c == '/' {
        assert SplitSlash(front + [c]) == left + right + [""];
        assert left + right + [""] == left + (right + [""]);
      } else {
        AppendToLastConcat(left, right, c);
      }
    }
  }

  /** Joining pieces that hold no '/' and splitting again gives the same pieces. */
  lemma {:induction false} SplitJoinSlash(pieces: seq<string>)
    requires |pieces| > 0
    requires forall i :: 0 <= i < |pieces| ==> '/' !in pieces[i]
    ensures SplitSlash(JoinSlash(pieces)) == pieces
  {
    if |pieces| == 1 {
      SplitSlashSingle(pieces[0]);
    } else {
      var init := pieces[..|pieces| - 1];
      var last := pieces[|pieces| - 1];
      SplitJoinSlash(init);
      SplitSlashConcat(JoinSlash(init), last);
      SplitSlashSingle(last);
    }
  }

  /** The meaningful pieces, in order: pathlib drops empty and "." components. */
  function Normalize(pieces: seq<string>): (parts: seq<string>)
    ensures forall i :: 0 <= i < |parts| ==> Meaningful(parts[i]) && parts[i] in pieces
  {
    if pieces == [] then []
    else
      var last := pieces[|pieces| - 1];
      Normalize(pieces[..|pieces| - 1]) + (if Meaningful(last) then [last] else [])
  }

  lemma {:induction false} NormalizeConcat(x: seq<string>, y: seq<string>)
    ensures Normalize(x + y) == Normalize(x) + Normalize(y)
    decreases |y|
  {
    if y == [] {
      assert x + y == x;
    } else {
      var y' := y[..|y| - 1];
      assert (x + y)[..|x + y| - 1] == x + y';
      NormalizeConcat(x, y');
    }
  }

  lemma {:induction false} NormalizeKeepsMeaningful(pieces: seq<string>)
    requires forall i :: 0 <= i < |pieces| ==> Meaningful(pieces[i])
    ensures Normalize(pieces) == pieces
  {
    if pieces != [] {
      NormalizeKeepsMeaningful(pieces[..|pieces| - 1]);
    }
  }

  /** `PurePosixPath(s)`. */
  function ParsePath(s: string): (p: Path)
    ensures forall i :: 0 <= i < |p.parts| ==> Meaningful(p.parts[i]) && '/' !in p.parts[i]
  {
    Path(|s| > 0 && s[0] == '/', Normalize(SplitSlash(s)))
  }

  /** The paths pathlib can produce. */
  predicate WellFormed(p: Path) {
    forall i :: 0 <= i < |p.parts| ==> Meaningful(p.parts[i]) && '/' !in p.parts[i]
  }

  /** `str(p)`: for a parsed path, never empty, and starting with '/' exactly when the path is absolute. */
  function Render(p: Path): (s: string)
    ensures WellFormed(p) ==> s != "" && (s[0] == '/' <==> p.absolute)
  {
    if p.parts == [] then (if p.absolute then "/" else ".")
    else if p.absolute then "/" + JoinSlash(p.parts)
    else
      JoinStartsWithFirst(p.parts);
      JoinSlash(p.parts)
  }

  /** Parsing what `str` prints gives back the same path. */
  lemma ParseRender(p: Path)
    requires WellFormed(p)
    ensures ParsePath(Render(p)) == p
  {
    if p.parts == [] {
      if p.absolute {
        SplitLeadingSlash("");
        assert Normalize(["", ""]) == [];
        assert Render(p) == "/" + "";
      } else {
        SplitSlashSingle(".");
        assert Render(p) == ".";
      }
      assert Normalize(SplitSlash(Render(p))) == [];
    } else {
      var joined := JoinSlash(p.parts);
      SplitJoinSlash(p.parts);
      NormalizeKeepsMeaningful(p.parts);
      if p.absolute {
        assert Render(p) == "/" + joined;
        SplitLeadingSlash(joined);
        NormalizeConcat([""], p.parts);
        assert Normalize([""]) == [];
        assert Normalize(SplitSlash(Render(p))) == p.parts;
      } else {
        assert Render(p) == joined;
        JoinStartsWithFirst(p.parts);
        assert joined[0] == p.parts[0][0];
        assert Normalize(SplitSlash(Render(p))) == p.parts;
      }
    }
  }

  lemma SplitLeadingSlash(t: string)
    ensures SplitSlash("/" + t) == [""] + SplitSlash(t)
  {
    assert "" + "/" + t == "/" + t;
    SplitSlashConcat("", t);
  }

  /** A join of pieces starts with the first piece. */
  lemma {:induction false} JoinStartsWithFirst(pieces: seq<string>)
    requires |pieces| > 0
    ensures pieces[0] <= JoinSlash(pieces)
  {
    if |pieces| > 1 {
      JoinStartsWithFirst(pieces[..|pieces| - 1]);
    }
  }

  /**
    `p.name`: the last component, or "" for a path without components. The
    name of a parsed path holds no '/', and it is empty only when the path has
    no components.
  */
  function Name(p: Path): (n: string)
    ensures WellFormed(p) ==> '/' !in n && (n == "" <==> p.parts == [])
  {
    if p.parts == [] then "" else p.parts[|p.parts| - 1]
  }

  /**
    `p.parent`: the path with its last component dropped, anchored as `p` is;
    a path without components is its own parent.
  */
  function Parent(p: Path): (q: Path)
    ensures q.absolute == p.absolute && q.parts <= p.parts
    ensures |q.parts| == if p.parts == [] then 0 else |p.parts| - 1
    ensures WellFormed(p) ==> WellFormed(q)
  {
    if p.parts == [] then p else Path(p.absolute, p.parts[..|p.parts| - 1])
  }

  /** `p / name` for a name that is a single component. */
  function Child(p: Path, name: string): (c: Path)
    ensures Parent(c) == p && Name(c) == name
  {
    Path(p.absolute, p.parts + [name])
  }

  /** A path with a component is the child of its parent named by its name. */
  lemma ChildOfParent(p: Path)
    requires p.parts != []
    ensures Child(Parent(p), Name(p)) == p
  {
  }

  /** The last piece of `s` ends with every '/'-free suffix of `s`. */
  lemma {:induction false} LastPieceHasSuffix(s: string, suffix: string)
    requires EndsWith(s, suffix) && '/' !in suffix
    ensures var pieces := SplitSlash(s); EndsWith(pieces[|pieces| - 1], suffix)
    decreases |suffix|
  {
    if |suffix| > 0 {
      var c := s[|s| - 1];
      var rest, suffix' := s[..|s| - 1], suffix[..|suffix| - 1];
      assert c == suffix[|suffix| - 1];
      assert c != '/';
      assert rest[|rest| - |suffix'|..] == s[|s| - |suffix|..|s| - 1];
      assert '/' !in suffix' by {
        forall i | 0 <= i < |suffix'| ensures suffix'[i] != '/' { assert suffix'[i] == suffix[i]; }
      }
      LastPieceHasSuffix(rest, suffix');
      var init := SplitSlash(rest);
      var last := init[|init| - 1];
      var pieces := SplitSlash(s);
      assert pieces[|pieces| - 1] == last + [c];
      assert (last + [c])[|last + [c]| - |suffix|..] == last[|last| - |suffix'|..] + [c];
      assert suffix == suffix' + [c];
    }
  }

  /**
    When an event's path string ends with a '/'-free, meaningful suffix, the
    parsed path has a last component, that component ends with the suffix, and
    it is the last '/'-separated piece of the string.
  */
  lemma PathWithSuffix(s: string, suffix: string)
    requires EndsWith(s, suffix) && '/' !in suffix && Meaningful(suffix)
    ensures ParsePath(s).parts != []
    ensures var pieces := SplitSlash(s); Name(ParsePath(s)) == pieces[|pieces| - 1]
    ensures EndsWith(Name(ParsePath(s)), suffix)
  {
    LastPieceHasSuffix(s, suffix);
    var pieces := SplitSlash(s);
    var last := pieces[|pieces| - 1];
  }
}
