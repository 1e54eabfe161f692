/** The two functions of POSIX `os.path` the application uses to build and read
    upload paths: `join` and the tail part of `split`, for the separator `/`. */
module PosixPath {
  import opened Text

  predicate IsAbsolute(p: string) { StartsWith(p, "/") }

  /** One step of `os.path.join`: an absolute component discards what was built
      so far; otherwise a `/` is put in between unless the path is empty or
      already ends with one. */
  function JoinStep(path: string, b: string): (r: string)
    ensures IsAbsolute(b) ==> r == b
    ensures !IsAbsolute(b) ==> EndsWith(r, b) && StartsWith(r, path)
    ensures !IsAbsolute(b) && (path == [] || EndsWith(path, "/")) ==> r == path + b
    ensures !IsAbsolute(b) && path != [] && !EndsWith(path, "/") ==> r == path + "/" + b
  {
    if IsAbsolute(b) then b
    else if path == [] || EndsWith(path, "/") then path + b
    else path + "/" + b
  }

  /** `os.path.join(a, *rest)`. */
  function Join(a: string, rest: seq<string>): string
    decreases |rest|
  {
    if rest == [] then a else Join(JoinStep(a, rest[0]), rest[1..])
  }

  /** A component that joins without surprises: non-empty, relative, and not
      ending with `/`. */
  predicate PlainComponent(b: string) {
    b != [] && !IsAbsolute(b) && !EndsWith(b, "/")
  }

  lemma PlainWhen(b: string)
    requires b != [] && b[0] != '/' && b[|b| - 1] != '/'
    ensures PlainComponent(b)
  {
    StartsWithChar(b, '/');
    assert b[|b| - 1..] == [b[|b| - 1]];
  }

  /** Reference form: each component preceded by one `/`. */
  function Slashed(rest: seq<string>): string {
    if rest == [] then "" else "/" + rest[0] + Slashed(rest[1..])
  }

  lemma PlainStep(a: string, b: string)
    requires PlainComponent(a) && PlainComponent(b)
    ensures JoinStep(a, b) == a + "/" + b && PlainComponent(a + "/" + b)
  {
    var a' := a + "/" + b;
    assert a'[0] == a[0];
    assert a'[|a'| - 1..] == b[|b| - 1..];
  }

  predicate AllPlain(rest: seq<string>) {
    forall i :: 0 <= i < |rest| ==> PlainComponent(rest[i])
  }

  lemma AllPlainTail(rest: seq<string>)
    requires |rest| > 0 && AllPlain(rest)
    ensures AllPlain(rest[1..])
  {
    forall i | 0 <= i < |rest[1..]| ensures PlainComponent(rest[1..][i]) {
      assert rest[1..][i] == rest[i + 1];
    }
  }

  /** Without absolute components, `join` puts exactly one `/` between the parts. */
  lemma {:induction false} JoinPlain(a: string, rest: seq<string>)
    requires PlainComponent(a)
    requires AllPlain(rest)
    ensures Join(a, rest) == a + Slashed(rest)
    decreases |rest|
  {
    if rest != [] {
      var b := rest[0];
      PlainStep(a, b);
      AllPlainTail(rest);
      JoinPlain(a + "/" + b, rest[1..]);
      SlashedCons(a, rest);
    }
  }

  lemma SlashedCons(a: string, rest: seq<string>)
    requires rest != []
    ensures a + "/" + rest[0] + Slashed(rest[1..]) == a + Slashed(rest)
  {
    assert a + "/" + rest[0] + Slashed(rest[1..]) == a + ("/" + rest[0] + Slashed(rest[1..]));
  }

  /** `join` of three plain components. */
  lemma JoinPlainTwo(a: string, b: string, c: string)
    requires PlainComponent(a) && PlainComponent(b) && PlainComponent(c)
    ensures Join(a, [b, c]) == a + "/" + b + "/" + c
  {
    PlainStep(a, b);
    PlainStep(a + "/" + b, c);
    assert [b, c][1..] == [c] && [c][1..] == [];
    assert Join(a, [b, c]) == Join(a + "/" + b, [c]);
    assert Join(a + "/" + b, [c]) == Join(a + "/" + b + "/" + c, []);
  }

  /** `join` of four plain components. */
  lemma JoinPlainThree(a: string, b: string, c: string, d: string)
    requires PlainComponent(a) && PlainComponent(b) && PlainComponent(c) && PlainComponent(d)
    ensures Join(a, [b, c, d]) == a + "/" + b + "/" + c + "/" + d
  {
    PlainStep(a, b);
    assert [b, c, d][1..] == [c, d];
    JoinPlainTwo(a + "/" + b, c, d);
  }

  /** An absolute component makes `join` forget everything before it. */
  lemma {:induction false} JoinAbsolute(a: string, rest: seq<string>, k: int)
    requires 0 <= k < |rest| && IsAbsolute(rest[k])
    ensures Join(a, rest) == Join(rest[k], rest[k + 1..])
    decreases |rest|
  {
    if k > 0 {
      assert rest[1..][k - 1] == rest[k];
      assert rest[1..][k..] == rest[k + 1..];
      JoinAbsolute(JoinStep(a, rest[0]), rest[1..], k - 1);
    }
  }

  /** The tail of `os.path.split(p)`: the text after the last `/` (all of `p`
      when it has none). */
  function Basename(p: string): (r: string)
    ensures '/' !in r
    ensures EndsWith(p, r)
    ensures |r| < |p| ==> p[|p| - |r| - 1] == '/'
  {
    if p == [] || p[|p| - 1] == '/' then ""
    else Basename(p[..|p| - 1]) + [p[|p| - 1]]
  }

  /** A name without `/` after a path that is empty or ends with `/` is the basename. */
  lemma {:induction false} BasenameAfterSlash(x: string, f: string)
    requires x == [] || EndsWith(x, "/")
    requires '/' !in f
    ensures Basename(x + f) == f
    decreases |f|
  {
    if f == [] {
      assert x + f == x;
    } else {
      var p := x + f;
      assert p[..|p| - 1] == x + f[..|f| - 1];
      assert p[|p| - 1] == f[|f| - 1];
      BasenameAfterSlash(x, f[..|f| - 1]);
    }
  }

  /** Joining a last component without `/` makes that component the basename,
      whatever came before it. */
  lemma BasenameOfJoinStep(path: string, f: string)
    requires '/' !in f
    ensures Basename(JoinStep(path, f)) == f
  {
    assert !IsAbsolute(f) by {
      if |f| > 0 { assert f[0] != '/'; }
    }
    if path == [] || EndsWith(path, "/") {
      BasenameAfterSlash(path, f);
    } else {
      assert path + "/" + f == (path + "/") + f;
      BasenameAfterSlash(path + "/", f);
    }
  }

  lemma {:induction false} JoinLast(a: string, rest: seq<string>)
    requires |rest| > 0
    ensures Join(a, rest) == JoinStep(Join(a, rest[..|rest| - 1]), rest[|rest| - 1])
    decreases |rest|
  {
    var init := rest[..|rest| - 1];
    if |rest| > 1 {
      var t := rest[1..];
      assert t[..|t| - 1] == init[1..] && t[|t| - 1] == rest[|rest| - 1];
      assert init != [] && init[0] == rest[0];
      JoinLast(JoinStep(a, rest[0]), t);
    } else {
      assert init == [] && rest[1..] == [];
    }
  }

  /** The basename of a joined path is its last component, when that holds no `/`. */
  lemma BasenameOfJoin(a: string, rest: seq<string>)
    requires |rest| > 0 && '/' !in rest[|rest| - 1]
    ensures Basename(Join(a, rest)) == rest[|rest| - 1]
  {
    JoinLast(a, rest);
    BasenameOfJoinStep(Join(a, rest[..|rest| - 1]), rest[|rest| - 1]);
  }
}
