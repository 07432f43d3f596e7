/** The bounded pull-request checkout the CLI generates (cli/src/project.ts): the paged listing of the
    changed files, the choice of files to fetch, and the fetches, which finish in any order. */
module Checkout {

  const PAGE := 100
  const MAX_PAGES := 10
  const MAX_FILES := 100
  const MAX_BYTES := 20 * 1024 * 1024

  // ----- Paging -----

  function Page<T>(all: seq<T>, page: nat): seq<T>
    requires page >= 1
  {
    var from := PAGE * (page - 1);
    if from >= |all| then []
    else if from + PAGE <= |all| then all[from..from + PAGE]
    else all[from..]
  }

  /** The first 1000 items of a listing. It is never taken for whole when it is not; a listing of
      exactly 1000 items is taken for cut although it is whole. */
  method GithubPages<T>(all: seq<T>) returns (items: seq<T>, truncated: bool)
    ensures items == all[..if |all| < 1000 then |all| else 1000]
    ensures truncated <==> |all| >= 1000
    ensures !truncated ==> items == all
    ensures truncated && items == all <==> |all| == 1000
  {
    items, truncated := [], false;
    var page := 1;
    while page <= MAX_PAGES
      invariant 1 <= page <= MAX_PAGES + 1
      invariant PAGE * (page - 1) <= |all| && items == all[..PAGE * (page - 1)]
      invariant truncated <==> page > 1
    {
      var batch := Page(all, page);
      items := items + batch;
      truncated := |batch| == PAGE;
      if !truncated { break; }
      page := page + 1;
    }
  }

  // ----- Which files to fetch -----

  const GUIDANCE := ["AGENTS.md", "README.md", "CONTRIBUTING.md", "package.json", "pnpm-workspace.yaml",
                     "go.mod", "go.work", "Cargo.toml", "pyproject.toml", "requirements.txt"]
  const NEARBY := ["AGENTS.md", "README.md", "package.json"]

  ghost predicate Distinct(s: seq<string>) {
    forall i, j :: 0 <= i < j < |s| ==> s[i] != s[j]
  }

  ghost function Members(s: seq<string>): set<string> {
    set x | x in s
  }

  /** Adding to a JavaScript Set, which keeps the order of first insertion. */
  function AddNew(s: seq<string>, x: string): seq<string> {
    if x in s then s else s + [x]
  }

  function AddAll(s: seq<string>, xs: seq<string>): seq<string> {
    if xs == [] then s else AddNew(AddAll(s, xs[..|xs| - 1]), xs[|xs| - 1])
  }

  lemma MembersSnoc(s: seq<string>, x: string)
    ensures Members(s + [x]) == Members(s) + {x}
  {
    assert forall y :: y in s + [x] <==> y in s || y == x;
  }

  lemma {:induction false} AddAllKeeps(s: seq<string>, xs: seq<string>)
    requires Distinct(s)
    ensures var t := AddAll(s, xs); s <= t && Distinct(t) && Members(t) == Members(s) + Members(xs)
  {
    if xs != [] {
      var before, x := xs[..|xs| - 1], xs[|xs| - 1];
      AddAllKeeps(s, before);
      assert xs == before + [x];
      MembersSnoc(before, x);
      MembersSnoc(AddAll(s, before), x);
    }
  }

  /** The guidance files of every directory on the way to a path. */
  function AboveFrom(path: string, i: nat): seq<string>
    requires i <= |path|
    decreases |path| - i
  {
    if i == |path| then []
    else if path[i] == '/' then Here(path[..i], |NEARBY|) + AboveFrom(path, i + 1)
    else AboveFrom(path, i + 1)
  }

  function Here(directory: string, n: nat): seq<string>
    requires n <= |NEARBY|
  {
    if n == 0 then [] else Here(directory, n - 1) + [directory + "/" + NEARBY[n - 1]]
  }

  function Above(paths: seq<string>): seq<string> {
    if paths == [] then [] else Above(paths[..|paths| - 1]) + AboveFrom(paths[|paths| - 1], 0)
  }

  function Candidates(changed: seq<string>): seq<string> {
    AddAll(AddAll(AddAll([], changed), GUIDANCE), Above(AddAll([], changed)))
  }

  function Requested(changed: seq<string>): seq<string> {
    var all := Candidates(changed);
    if |all| <= MAX_FILES then all else all[..MAX_FILES]
  }

  lemma AddAllSnoc(s: seq<string>, xs: seq<string>, x: string)
    ensures AddAll(s, xs + [x]) == AddNew(AddAll(s, xs), x)
  {
    assert (xs + [x])[..|xs|] == xs;
  }

  lemma {:induction false} AddAllConcat(s: seq<string>, xs: seq<string>, ys: seq<string>)
    ensures AddAll(AddAll(s, xs), ys) == AddAll(s, xs + ys)
  {
    if ys == [] {
      assert xs + ys == xs;
    } else {
      var before, y := ys[..|ys| - 1], ys[|ys| - 1];
      AddAllConcat(s, xs, before);
      assert xs + ys == xs + before + [y];
      AddAllSnoc(s, xs + before, y);
    }
  }

  /** One loop of `add` calls. */
  method AddEach(s: seq<string>, xs: seq<string>) returns (t: seq<string>)
    ensures t == AddAll(s, xs)
  {
    t := s;
    for i := 0 to |xs|
      invariant t == AddAll(s, xs[..i])
    {
      assert xs[..i + 1] == xs[..i] + [xs[i]];
      AddAllSnoc(s, xs[..i], xs[i]);
      t := AddNew(t, xs[i]);
    }
    assert xs[..|xs|] == xs;
  }

  /** The guidance files on the way to one path, directory by directory. */
  method AddAbove(s: seq<string>, path: string) returns (t: seq<string>)
    ensures t == AddAll(s, AboveFrom(path, 0))
  {
    t := s;
    ghost var done: seq<string> := [];
    for i := 0 to |path|
      invariant t == AddAll(s, done) && done + AboveFrom(path, i) == AboveFrom(path, 0)
    {
      if path[i] == '/' {
        var here := Here(path[..i], |NEARBY|);
        AddAllConcat(s, done, here);
        assert done + (here + AboveFrom(path, i + 1)) == done + here + AboveFrom(path, i + 1);
        t := AddEach(t, here);
        done := done + here;
      }
    }
    assert done + [] == done;
  }

  method BuildCandidates(changed: seq<string>) returns (all: seq<string>)
    ensures all == Candidates(changed)
  {
    var own := AddEach([], changed);
    all := AddEach(own, GUIDANCE);
    ghost var start := all;
    for i := 0 to |own|
      invariant all == AddAll(start, Above(own[..i]))
    {
      assert own[..i + 1][..i] == own[..i];
      AddAllConcat(start, Above(own[..i]), AboveFrom(own[i], 0));
      all := AddAbove(all, own[i]);
    }
    assert own[..|own|] == own;
  }

  /** A guidance file of a directory on the way to the path: the directory ends where a slash stands. */
  ghost predicate Beside(path: string, i: nat, x: string)
    requires i <= |path|
  {
    exists k :: i <= k < |path| && path[k] == '/' && GuidanceOf(path[..k], x)
  }

  predicate GuidanceOf(directory: string, x: string) {
    x == directory + "/AGENTS.md" || x == directory + "/README.md" || x == directory + "/package.json"
  }

  lemma HereExactly(directory: string, x: string)
    ensures x in Here(directory, |NEARBY|) <==> GuidanceOf(directory, x)
  {
    assert "/" + "AGENTS.md" == "/AGENTS.md" && "/" + "README.md" == "/README.md" && "/" + "package.json" == "/package.json";
    assert directory + "/" + "AGENTS.md" == directory + "/AGENTS.md";
    assert directory + "/" + "README.md" == directory + "/README.md";
    assert directory + "/" + "package.json" == directory + "/package.json";
    assert Here(directory, 3) == Here(directory, 2) + [directory + "/" + NEARBY[2]];
    assert Here(directory, 2) == Here(directory, 1) + [directory + "/" + NEARBY[1]];
    assert Here(directory, 1) == Here(directory, 0) + [directory + "/" + NEARBY[0]];
  }

  lemma {:induction false} AboveExactly(path: string, i: nat, x: string)
    requires i <= |path|
    ensures x in AboveFrom(path, i) <==> Beside(path, i, x)
    decreases |path| - i
  {
    if i < |path| {
      AboveExactly(path, i + 1, x);
      HereExactly(path[..i], x);
      assert Beside(path, i, x) <==> (path[i] == '/' && GuidanceOf(path[..i], x)) || Beside(path, i + 1, x);
    }
  }

  lemma {:induction false} AboveAllExactly(paths: seq<string>, x: string)
    ensures x in Above(paths) <==> BesideSome(paths, x)
  {
    if paths != [] {
      var before, last := paths[..|paths| - 1], paths[|paths| - 1];
      AboveAllExactly(before, x);
      AboveExactly(last, 0, x);
      BesideSnoc(paths, x);
    }
  }

  lemma BesideSnoc(paths: seq<string>, x: string)
    requires paths != []
    ensures BesideSome(paths, x) <==> BesideSome(paths[..|paths| - 1], x) || Beside(paths[|paths| - 1], 0, x)
  {
    var before := paths[..|paths| - 1];
    if i :| 0 <= i < |before| && Beside(before[i], 0, x) {
      assert Beside(paths[i], 0, x);
    }
    if i :| 0 <= i < |paths| && Beside(paths[i], 0, x) {
      assert i < |before| ==> Beside(before[i], 0, x);
    }
  }

  /** The candidates: the changed files, the ten guidance files of the root, and the three of every
      directory on the way to a changed file. */
  lemma CandidatesExactly(changed: seq<string>, x: string)
    ensures x in Candidates(changed) <==> x in changed || RootGuidance(x) || BesideSome(changed, x)
  {
    var own := AddAll([], changed);
    AddAllHas(AddAll(own, GUIDANCE), Above(own), x);
    AddAllHas(own, GUIDANCE, x);
    AddAllHas([], changed, x);
    AboveAllExactly(own, x);
    BesideOwn(changed, x);
  }

  predicate RootGuidance(x: string) {
    || x == "AGENTS.md" || x == "README.md" || x == "CONTRIBUTING.md" || x == "package.json" || x == "pnpm-workspace.yaml"
    || x == "go.mod" || x == "go.work" || x == "Cargo.toml" || x == "pyproject.toml" || x == "requirements.txt"
  }

  ghost predicate BesideSome(paths: seq<string>, x: string) {
    exists i :: 0 <= i < |paths| && Beside(paths[i], 0, x)
  }

  lemma {:induction false} AddAllHas(s: seq<string>, xs: seq<string>, x: string)
    ensures x in AddAll(s, xs) <==> x in s || x in xs
  {
    if xs != [] {
      AddAllHas(s, xs[..|xs| - 1], x);
      assert xs == xs[..|xs| - 1] + [xs[|xs| - 1]];
    }
  }

  lemma BesideOwn(changed: seq<string>, x: string)
    ensures BesideSome(AddAll([], changed), x) <==> BesideSome(changed, x)
  {
    var own := AddAll([], changed);
    if i :| 0 <= i < |own| && Beside(own[i], 0, x) {
      AddAllHas([], changed, own[i]);
      var j :| 0 <= j < |changed| && changed[j] == own[i];
      assert Beside(changed[j], 0, x);
    }
    if i :| 0 <= i < |changed| && Beside(changed[i], 0, x) {
      AddAllHas([], changed, changed[i]);
      var j :| 0 <= j < |own| && own[j] == changed[i];
      assert Beside(own[j], 0, x);
    }
  }

  /** The changed files come first: all of them are requested exactly if there are at most 100. */
  lemma ChangedComeFirst(changed: seq<string>)
    ensures Distinct(Requested(changed))
    ensures Requested(changed) <= Candidates(changed) && |Requested(changed)| <= 100
    ensures Members(changed) <= Members(Requested(changed)) <==> |AddAll([], changed)| <= 100
    ensures |Candidates(changed)| <= 100 ==> Members(changed) <= Members(Requested(changed))
  {
    var own := AddAll([], changed);
    AddAllKeeps([], changed);
    AddAllKeeps(own, GUIDANCE);
    AddAllKeeps(AddAll(own, GUIDANCE), Above(own));
    var all, some := Candidates(changed), Requested(changed);
    assert own <= all;
    assert Members(own) == Members(changed);
    if |own| <= MAX_FILES {
      assert own <= some;
      forall x | x in own
        ensures x in some
      {
        var i :| 0 <= i < |own| && own[i] == x;
        assert some[i] == x;
      }
    } else {
      var x := own[MAX_FILES];
      assert all[MAX_FILES] == x;
      assert forall i :: 0 <= i < |some| ==> some[i] == all[i] && all[i] != all[MAX_FILES];
      assert x in Members(own) && x !in some;
    }
  }

  // ----- Fetching -----

  datatype File = File(path: string, bytes: nat)

  function Bytes(fs: seq<File>): nat {
    if fs == [] then 0 else Bytes(fs[..|fs| - 1]) + fs[|fs| - 1].bytes
  }

  function Paths(fs: seq<File>): set<string> {
    if fs == [] then {} else Paths(fs[..|fs| - 1]) + {fs[|fs| - 1].path}
  }

  lemma FilesSnoc(fs: seq<File>, f: File)
    ensures Bytes(fs + [f]) == Bytes(fs) + f.bytes
    ensures Paths(fs + [f]) == Paths(fs) + {f.path}
  {
    assert (fs + [f])[..|fs|] == fs;
  }

  /** The variables the concurrent fetches share. A fetch is `open` until its content arrives, then
      `writing` until its file is on disk; `accepted` are the files whose writing was started. */
  class Fetches {
    const changed: set<string>
    const truncated: bool
    const candidates: nat
    ghost const requested: set<string>

    var totalBytes: nat
    var limitExceeded: bool
    var materialized: set<string>
    var missingChanged: set<string>
    ghost var open: set<string>
    ghost var writing: set<string>
    ghost var accepted: seq<File>

    /** What was accepted fits the limit. */
    ghost predicate Counted()
      reads this
    {
      && Bytes(accepted) <= totalBytes && Bytes(accepted) <= MAX_BYTES
      && (limitExceeded <==> totalBytes > MAX_BYTES)
      && materialized + writing <= Paths(accepted)
    }

    /** Every requested file is under way, on disk, or failed; a failed one that the pull request
        changed is reported missing. */
    ghost predicate Sorted()
      reads this
    {
      && open !! writing && (open + writing) !! materialized && missingChanged !! (open + writing + materialized)
      && open + writing + materialized <= requested && missingChanged <= changed
      && requested * changed <= open + writing + materialized + missingChanged
    }

    ghost predicate Valid()
      reads this
    {
      Counted() && Sorted()
    }

    constructor (paths: seq<string>, cut: bool)
      ensures Valid() && changed == Members(paths) && truncated == cut && requested == Members(Requested(paths))
      ensures candidates == |Candidates(paths)| && open == requested && accepted == []
    {
      changed, truncated, candidates := (set p | p in paths), cut, |Candidates(paths)|;
      totalBytes, limitExceeded, materialized, missingChanged := 0, false, {}, {};
      requested, open := Members(Requested(paths)), Members(Requested(paths));
      writing, accepted := {}, [];
    }

    /** A fetch ends in an error. */
    method Fail(path: string)
      requires Valid() && (path in open || path in writing)
      modifies this
      ensures Valid() && open == old(open) - {path} && writing == old(writing) - {path}
      ensures missingChanged == old(missingChanged) + (if path in changed then {path} else {})
      ensures unchanged(`totalBytes, `limitExceeded, `materialized, `accepted)
    {
      if path in changed {
        missingChanged := missingChanged + {path};
      }
      open, writing := open - {path}, writing - {path};
    }

    /** Content has arrived: it is counted, and refused if the count is then over the limit or its
        path would leave the checkout. */
    method Arrive(path: string, bytes: nat, inside: bool) returns (ok: bool)
      requires Valid() && path in open
      modifies this
      ensures Valid() && totalBytes == old(totalBytes) + bytes
      ensures ok <==> totalBytes <= MAX_BYTES && inside
      ensures ok ==> accepted == old(accepted) + [File(path, bytes)] && writing == old(writing) + {path} && open == old(open) - {path}
      ensures !ok ==> accepted == old(accepted) && path !in open && path !in writing
    {
      totalBytes := totalBytes + bytes;
      if totalBytes > MAX_BYTES {
        limitExceeded := true;
        Fail(path);
        return false;
      }
      if !inside {
        Fail(path);
        return false;
      }
      Accept(path, bytes);
      return true;
    }

    ghost method Accept(path: string, bytes: nat)
      requires Valid() && path in open && Bytes(accepted) + bytes <= totalBytes <= MAX_BYTES
      modifies this`open, this`writing, this`accepted
      ensures Valid() && accepted == old(accepted) + [File(path, bytes)]
      ensures writing == old(writing) + {path} && open == old(open) - {path}
    {
      FilesSnoc(accepted, File(path, bytes));
      open, writing, accepted := open - {path}, writing + {path}, accepted + [File(path, bytes)];
    }

    method Written(path: string)
      requires Valid() && path in writing
      modifies this
      ensures Valid() && materialized == old(materialized) + {path} && writing == old(writing) - {path}
      ensures unchanged(`totalBytes, `limitExceeded, `missingChanged, `open, `accepted)
    {
      materialized := materialized + {path};
      writing := writing - {path};
    }

    /** The report, when no fetch is under way any more. */
    method Report() returns (complete: bool)
      requires Valid() && open == {} && writing == {}
      ensures complete <==> !truncated && candidates <= MAX_FILES && !limitExceeded && missingChanged == {}
      ensures complete ==> requested * changed <= materialized && totalBytes <= MAX_BYTES
      ensures Bytes(accepted) <= MAX_BYTES
    {
      complete := !truncated && candidates <= MAX_FILES && !limitExceeded && missingChanged == {};
    }
  }

  /** A checkout reported complete has every file the pull request changed, whatever the order in
      which its fetches ended. */
  method Judge(all: seq<string>, f: Fetches) returns (complete: bool)
    requires f.Valid() && f.open == {} && f.writing == {}
    requires var paths := all[..if |all| < 1000 then |all| else 1000];
             && f.changed == Members(paths) && f.truncated == (|all| >= 1000)
             && f.candidates == |Candidates(paths)| && f.requested == Members(Requested(paths))
    ensures complete ==> Members(all) <= f.materialized
  {
    complete := f.Report();
    if complete {
      assert all[..|all|] == all;
      ChangedComeFirst(all);
      assert f.requested * f.changed == Members(all);
    }
  }
}
