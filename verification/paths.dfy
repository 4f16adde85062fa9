/** The parts of `pathlib.PurePosixPath` the modelled code uses: joining a
    directory and a relative path, the final component (`name`) and its
    extension (`suffix`). Paths are their POSIX text. */
module Paths {

  import opened Seqs
  import Text

  function IsSlash(c: char): bool {
    c == '/'
  }

  /** The components pathlib keeps: empty and "." components vanish. */
  function Components(pieces: seq<string>): (r: seq<string>)
    ensures forall i :: 0 <= i < |r| ==> r[i] in pieces && r[i] != "" && r[i] != "."
  {
    if pieces == [] then []
    else if pieces[0] == "" || pieces[0] == "." then Components(pieces[1..])
    else [pieces[0]] + Components(pieces[1..])
  }

  /** `PurePath(p).name`: the final component, or "" when there is none. */
  function Name(p: string): (r: string)
    ensures forall i :: 0 <= i < |r| ==> r[i] != '/'
  {
    var parts := Components(Text.Split(p, IsSlash));
    if parts == [] then "" else parts[|parts| - 1]
  }

  /** `s.rfind('.')`: the position of the last dot, or -1. */
  function LastDot(s: string): (i: int)
    ensures -1 <= i < |s|
    ensures i >= 0 ==> s[i] == '.'
    ensures forall j :: i < j < |s| ==> s[j] != '.'
  {
    if s == [] then -1
    else if s[|s| - 1] == '.' then |s| - 1
    else LastDot(s[..|s| - 1])
  }

  /** `PurePath(p).suffix`: from the last dot of the name, provided that
      dot is neither the first nor the last character of the name. */
  function Suffix(p: string): (r: string)
    ensures r == "" || (|r| >= 2 && r[0] == '.' && '.' !in r[1..])
  {
    var n := Name(p);
    var i := LastDot(n);
    if 0 < i < |n| - 1 then n[i..] else ""
  }

  /** `PurePath(dir) / rel`: an absolute `rel` replaces `dir`. */
  function Join(dir: string, rel: string): string {
    if rel == "" then dir
    else if rel[0] == '/' then rel
    else dir + "/" + rel
  }

  /** A single component is its own name. */
  lemma {:induction false} NameOfComponent(n: string)
    requires n != "" && n != "."
    requires forall i :: 0 <= i < |n| ==> n[i] != '/'
    ensures Name(n) == n
  {
    Text.SplitNoSeparator(n, IsSlash);
  }

  /** `stem + ext` has suffix `ext` when `ext` is a dot followed by at least
      one other character and no further dot, and the stem is not empty. */
  lemma {:induction false} SuffixOfExtension(stem: string, ext: string)
    requires stem != "" && forall i :: 0 <= i < |stem| ==> stem[i] != '/'
    requires |ext| >= 2 && ext[0] == '.'
    requires forall i :: 0 <= i < |ext| ==> ext[i] != '/'
    requires forall i :: 1 <= i < |ext| ==> ext[i] != '.'
    ensures Suffix(stem + ext) == ext
  {
    var n := stem + ext;
    NameOfComponent(n);
    var i := LastDot(n);
    assert n[|stem|] == '.';
    assert forall j :: |stem| < j < |n| ==> n[j] == ext[j - |stem|];
    assert i == |stem|;
    assert n[|stem|..] == ext;
  }

  lemma {:induction false} ComponentsAppend(a: seq<string>, b: seq<string>)
    ensures Components(a + b) == Components(a) + Components(b)
  {
    if a != [] {
      assert (a + b)[1..] == a[1..] + b;
      ComponentsAppend(a[1..], b);
    } else {
      assert a + b == b;
    }
  }

  /** Joining a relative single-component name to a directory makes that
      name the final component. */
  lemma {:induction false} NameOfJoin(dir: string, n: string)
    requires n != "" && n != "."
    requires forall i :: 0 <= i < |n| ==> n[i] != '/'
    ensures Name(Join(dir, n)) == n
  {
    assert Join(dir, n) == dir + ['/'] + n;
    Text.SplitAtSeparator(dir, '/', n, IsSlash);
    Text.SplitNoSeparator(n, IsSlash);
    ComponentsAppend(Text.Split(dir, IsSlash), [n]);
    assert Components([n]) == [n] by {
      assert [n][1..] == [];
    }
  }

  /** The suffix depends on the final component alone. */
  lemma {:induction false} SuffixOfName(p: string, q: string)
    requires Name(p) == Name(q)
    ensures Suffix(p) == Suffix(q)
  {
  }
}
