/** Slash-separated paths as path/filepath handles them on Unix: Clean,
    Join and Dir. */
module Paths {

  /** Index of the first '/' in p, or |p| when there is none. */
  function FirstSlash(p: string): (k: nat)
    ensures k <= |p|
  {
    if p == [] || p[0] == '/' then 0 else 1 + FirstSlash(p[1..])
  }

  /** The texts between the separators (strings.Split(p, "/")). */
  function Split(p: string): (segs: seq<string>)
    ensures |segs| > 0
    decreases |p|
  {
    var k := FirstSlash(p);
    if k == |p| then [p] else [p[..k]] + Split(p[k + 1..])
  }

  /** The segments laid end to end with one '/' between neighbours. */
  function JoinSegs(segs: seq<string>): string
  {
    if segs == [] then ""
    else if |segs| == 1 then segs[0]
    else segs[0] + "/" + JoinSegs(segs[1..])
  }

  /** A segment Clean keeps: neither empty nor "." nor "..". */
  predicate Name(s: string)
  {
    s != "" && s != "." && s != ".."
  }

  /** What Clean leaves: names, with ".." only at the front (and, for a
      rooted path, not at all). */
  predicate Reduced(stack: seq<string>, rooted: bool)
  {
    forall i | 0 <= i < |stack| ::
      (Name(stack[i]) || (stack[i] == ".." && !rooted))
      && (stack[i] == ".." ==> forall j | 0 <= j < i :: stack[j] == "..")
  }

  /** Clean's scan over the segments, left to right: empty and "." segments
      vanish, ".." removes the previous name, or is dropped at the root of
      a rooted path, or is kept when nothing precedes it. */
  function Reduce(stack: seq<string>, segs: seq<string>, rooted: bool): (r: seq<string>)
    requires Reduced(stack, rooted)
    ensures Reduced(r, rooted)
    decreases |segs|
  {
    if segs == [] then stack
    else
      var s := segs[0];
      var next :=
        if s == "" || s == "." then stack
        else if s == ".." then
          if |stack| > 0 && stack[|stack| - 1] != ".." then stack[..|stack| - 1]
          else if rooted then stack
          else stack + [".."]
        else stack + [s];
      Reduce(next, segs[1..], rooted)
  }

  /** filepath.Clean: the shortest equivalent path by purely lexical
      processing; "." for the empty path. */
  function Clean(p: string): (r: string)
    ensures r != ""
  {
    if p == "" then "."
    else
      var rooted := p[0] == '/';
      var out := JoinSegs(Reduce([], Split(p), rooted));
      if rooted then "/" + out else if out == "" then "." else out
  }

  /** filepath.Join of two elements: the non-empty elements joined with
      '/', then cleaned; "" when both are empty. */
  function Join(a: string, b: string): string
  {
    if a != "" then Clean(a + "/" + b)
    else if b != "" then Clean(b)
    else ""
  }

  /** Index of the last '/' in p, or -1. */
  function LastSlash(p: string): (k: int)
    ensures -1 <= k < |p|
    ensures k >= 0 ==> p[k] == '/'
    ensures forall i | k < i < |p| :: p[i] != '/'
  {
    if p == [] then -1
    else if p[|p| - 1] == '/' then |p| - 1
    else LastSlash(p[..|p| - 1])
  }

  /** filepath.Dir: everything up to the last separator, cleaned. */
  function Dir(p: string): string
  {
    Clean(p[..LastSlash(p) + 1])
  }

  /** The directories on the way to p: every prefix of p that ends just
      before a separator (os.MkdirAll creates the missing ones first). */
  function ProperAncestors(p: string): (s: set<string>)
    ensures forall q | q in s :: |q| < |p| && q + "/" <= p
  {
    set k | 0 < k < |p| && p[k] == '/' :: p[..k]
  }

  /** Without a separator, FirstSlash runs to the end. */
  lemma {:induction false} FirstSlashNone(a: string)
    requires '/' !in a
    ensures FirstSlash(a) == |a|
  {
    if a != [] {
      assert a[0] in a;
      assert forall c | c in a[1..] :: c in a;
      FirstSlashNone(a[1..]);
    }
  }

  lemma SplitLiteral(a: string, b: string)
    requires '/' !in a
    ensures Split(a + "/" + b) == [a] + Split(b)
  {
    var p := a + "/" + b;
    assert p == a + ("/" + b);
    FirstSlashNone(a);
    FirstSlashAppend(a, "/" + b);
    assert FirstSlash("/" + b) == 0;
    assert p[..|a|] == a && p[|a| + 1..] == b;
  }

  lemma SplitName(a: string)
    requires '/' !in a
    ensures Split(a) == [a]
  {
    FirstSlashNone(a);
  }

  /** The segments of a joined list are the list itself, when no segment
      contains a separator. */
  lemma {:induction false} SplitJoinSegs(segs: seq<string>)
    requires |segs| > 0 && forall i | 0 <= i < |segs| :: '/' !in segs[i]
    ensures Split(JoinSegs(segs)) == segs
  {
    if |segs| == 1 {
      SplitName(segs[0]);
    } else {
      SplitLiteral(segs[0], JoinSegs(segs[1..]));
      SplitJoinSegs(segs[1..]);
      assert segs == [segs[0]] + segs[1..];
    }
  }

  /** Where the first separator of q + r is. */
  lemma {:induction false} FirstSlashAppend(q: string, r: string)
    ensures FirstSlash(q + r) == if FirstSlash(q) < |q| then FirstSlash(q) else |q| + FirstSlash(r)
  {
    if q == [] {
      assert q + r == r;
    } else if q[0] != '/' {
      assert (q + r)[0] == q[0] && (q + r)[1..] == q[1..] + r;
      FirstSlashAppend(q[1..], r);
    }
  }

  /** Before FirstSlash there is no separator, and at it there is one. */
  lemma {:induction false} FirstSlashSplits(q: string)
    requires FirstSlash(q) < |q|
    ensures '/' !in q[..FirstSlash(q)]
    ensures q == q[..FirstSlash(q)] + "/" + q[FirstSlash(q) + 1..]
  {
    if q[0] != '/' {
      var k := FirstSlash(q[1..]);
      FirstSlashSplits(q[1..]);
      assert q[..1 + k] == [q[0]] + q[1..][..k];
      assert q[1 + k + 1..] == q[1..][k + 1..];
    }
  }

  /** When FirstSlash runs to the end there is no separator at all. */
  lemma {:induction false} FirstSlashWhole(q: string)
    requires FirstSlash(q) == |q|
    ensures '/' !in q
  {
    if q != [] {
      FirstSlashWhole(q[1..]);
      assert q == [q[0]] + q[1..];
    }
  }

  /** A trailing separator adds one empty segment at the end. */
  lemma {:induction false} SplitTrailingSlash(q: string)
    ensures Split(q + "/") == Split(q) + [""]
    decreases |q|
  {
    var k := FirstSlash(q);
    SplitName("");
    if k == |q| {
      FirstSlashWhole(q);
      SplitName(q);
      SplitLiteral(q, "");
      assert q + "/" + "" == q + "/";
    } else {
      FirstSlashSplits(q);
      var a, b := q[..k], q[k + 1..];
      SplitLiteral(a, b);
      SplitLiteral(a, b + "/");
      assert q + "/" == a + "/" + (b + "/");
      SplitTrailingSlash(b);
    }
  }

  /** An empty last segment changes nothing in Clean's scan. */
  lemma {:induction false} ReduceTrailingEmpty(stack: seq<string>, segs: seq<string>, rooted: bool)
    requires Reduced(stack, rooted)
    ensures Reduce(stack, segs + [""], rooted) == Reduce(stack, segs, rooted)
    decreases |segs|
  {
    if segs == [] {
      assert [] + [""] == [""];
    } else {
      var s := segs[0];
      assert (segs + [""])[0] == s && (segs + [""])[1..] == segs[1..] + [""];
      var next :=
        if s == "" || s == "." then stack
        else if s == ".." then
          if |stack| > 0 && stack[|stack| - 1] != ".." then stack[..|stack| - 1]
          else if rooted then stack
          else stack + [".."]
        else stack + [s];
      ReduceTrailingEmpty(next, segs[1..], rooted);
    }
  }

  /** Clean ignores a trailing separator. */
  lemma CleanTrailingSlash(q: string)
    requires q != ""
    ensures Clean(q + "/") == Clean(q)
  {
    assert (q + "/")[0] == q[0];
    SplitTrailingSlash(q);
    ReduceTrailingEmpty([], Split(q), q[0] == '/');
  }

  lemma CleanRoot()
    ensures Clean("/") == "/"
  {
    assert "/" == "" + "/" + "";
    SplitLiteral("", "");
    SplitName("");
    assert Reduce([], ["", ""], true) == [];
  }

  /** Dir in general: "." without a separator, "/" when the only one is
      at the front, and otherwise the cleaned text before the last one. */
  lemma DirIsParent(p: string)
    ensures '/' in p <==> LastSlash(p) >= 0
    ensures '/' !in p ==> Dir(p) == "."
    ensures LastSlash(p) == 0 ==> Dir(p) == "/"
    ensures LastSlash(p) > 0 ==> Dir(p) == Clean(p[..LastSlash(p)])
  {
    var k := LastSlash(p);
    if '/' in p {
      var i :| 0 <= i < |p| && p[i] == '/';
      assert k >= i;
    }
    if k >= 0 {
      assert p[k] in p;
    }
    if k == -1 {
      assert p[..0] == "";
    } else if k == 0 {
      assert p[..1] == "/";
      CleanRoot();
    } else {
      assert p[..k + 1] == p[..k] + "/";
      CleanTrailingSlash(p[..k]);
    }
  }

  /** A scan over plain names only pushes them. */
  lemma {:induction false} ReduceNames(stack: seq<string>, segs: seq<string>, rooted: bool)
    requires Reduced(stack, rooted)
    requires forall i | 0 <= i < |segs| :: Name(segs[i])
    ensures Reduce(stack, segs, rooted) == stack + segs
    decreases |segs|
  {
    if segs == [] {
      assert stack + [] == stack;
    } else {
      ReduceNames(stack + [segs[0]], segs[1..], rooted);
      assert stack + [segs[0]] + segs[1..] == stack + segs;
    }
  }

  lemma JoinSegsHead(segs: seq<string>)
    requires |segs| > 0 && segs[0] != ""
    ensures JoinSegs(segs) != "" && JoinSegs(segs)[0] == segs[0][0]
  {
  }

  /** A relative path made of plain names is already clean. */
  lemma CleanNames(segs: seq<string>)
    requires |segs| > 0
    requires forall i | 0 <= i < |segs| :: Name(segs[i]) && '/' !in segs[i]
    ensures Clean(JoinSegs(segs)) == JoinSegs(segs)
  {
    var p := JoinSegs(segs);
    JoinSegsHead(segs);
    assert p[0] != '/' by {
      assert segs[0][0] in segs[0];
    }
    SplitJoinSegs(segs);
    ReduceNames([], segs, false);
    assert [] + segs == segs;
    assert Clean(p) == JoinSegs(Reduce([], Split(p), false));
  }

  /** A trailing separator vanishes: a tar directory entry "dir/" lands
      on the same path as the files below it expect for their parent. */
  lemma JoinDropsTrailingSlash(dst: string, name: string)
    requires Name(dst) && '/' !in dst && Name(name) && '/' !in name
    ensures Join(dst, name + "/") == dst + "/" + name
  {
    var p := dst + "/" + name;
    assert Join(dst, name + "/") == Clean(dst + "/" + (name + "/"));
    assert dst + "/" + (name + "/") == p + "/";
    CleanTrailingSlash(p);
    var segs := [dst, name];
    assert JoinSegs(segs[1..]) == name;
    assert JoinSegs(segs) == p;
    CleanNames(segs);
  }

  /** Clean's scan over a name, "..", and a second name. */
  lemma ReduceUpOne(dst: string, name: string)
    requires Name(dst) && Name(name)
    ensures Reduce([], [dst, "..", name], false) == [name]
  {
    var segs := [dst, "..", name];
    assert Reduced([dst], false) && Reduced([name], false);
    assert Reduce([], segs, false) == Reduce([dst], segs[1..], false);
    assert segs[1..] == ["..", name] && [dst][..0] == [];
    assert Reduce([dst], ["..", name], false) == Reduce([], ["..", name][1..], false);
    assert ["..", name][1..] == [name];
    assert Reduce([], [name], false) == Reduce([name], [name][1..], false);
    assert [name][1..] == [];
  }

  /** ".." removes the directory before it, so a name starting with ".."
      climbs out of the directory it is joined under. */
  lemma JoinClimbsOut(dst: string, name: string)
    requires Name(dst) && '/' !in dst && Name(name) && '/' !in name
    ensures Join(dst, "../" + name) == name
  {
    var segs := [dst, "..", name];
    var p := dst + "/" + ("../" + name);
    assert Join(dst, "../" + name) == Clean(p);
    assert JoinSegs(segs[2..]) == name;
    assert JoinSegs(segs[1..]) == ".." + "/" + name;
    assert JoinSegs(segs) == p;
    assert p[0] == dst[0] != '/' by {
      assert dst[0] in dst;
    }
    assert '/' !in ".." by {
      assert ".." == ['.', '.'];
    }
    SplitJoinSegs(segs);
    ReduceUpOne(dst, name);
    assert JoinSegs([name]) == name;
  }

  /** Dir of an entry under a directory is that directory, cleaned. */
  lemma DirOfEntry(dir: string, name: string)
    requires dir != "" && '/' !in name
    ensures Dir(dir + "/" + name) == Clean(dir)
  {
    var q := dir + "/" + name;
    assert q[|dir|] == '/';
    assert forall i | |dir| < i < |q| :: q[i] == name[i - |dir| - 1];
    assert LastSlash(q) == |dir|;
    assert q[..|dir| + 1] == dir + "/";
    CleanTrailingSlash(dir);
  }

  /** ".." at the root stays at the root. */
  lemma CleanRootParent()
    ensures Clean("/..") == "/"
  {
    assert "/.." == "" + "/" + "..";
    SplitLiteral("", "..");
    SplitName("..");
    assert Reduce([], ["", ".."], true) == [];
  }
}
