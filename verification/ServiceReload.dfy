// Reloading the service (qnatter/files/qnatter.init:675-681, 697-854): what is recorded
// about the running instances, what procd runs, and what a reload does to both.

module ServiceReload {
  import opened Text

  // The fingerprint file of an instance: its section, and everything else in it.
  datatype Fp = Fp(section: string, rest: string)

  // A process of procd, and the fingerprint it was started with.
  datatype Proc = Proc(fp: Fp, pid: nat)

  type Files = map<string, Fp>
  type Running = map<string, Proc>

  // What the configuration asks for: one fingerprint for each enabled instance.
  type Wanted = seq<Fp>

  // No section twice, and sections have names.
  ghost predicate WellFormed(want: Wanted) {
    && (forall i :: 0 <= i < |want| ==> want[i].section != "")
    && (forall i, j :: 0 <= i < j < |want| ==> want[i].section != want[j].section)
  }

  // The slug of a section, under which its files are kept.
  type Slug = string -> string

  ghost predicate Separates(slug: Slug, sections: set<string>) {
    && (forall s :: s in sections ==> slug(s) != "")
    && (forall s, t :: s in sections && t in sections && slug(s) == slug(t) ==> s == t)
  }

  function Sections(want: Wanted): (s: set<string>)
    ensures forall x :: x in s <==> exists i :: 0 <= i < |want| && want[i].section == x
  {
    set fp | fp in want :: fp.section
  }

  // The list file a start or a preparation writes.
  function ListOf(slug: Slug, want: Wanted): (list: seq<string>)
    ensures |list| == |want| && forall i :: 0 <= i < |want| ==> list[i] == slug(want[i].section)
  {
    seq(|want|, i requires 0 <= i < |want| => slug(want[i].section))
  }

  // The fingerprint files it writes, over those there are.
  function FilesOf(slug: Slug, files: Files, want: Wanted): Files {
    if want == [] then files
    else FilesOf(slug, files, want[..|want| - 1])[slug(want[|want| - 1].section) := want[|want| - 1]]
  }

  lemma {:induction false} FilesAre(slug: Slug, files: Files, want: Wanted)
    requires WellFormed(want) && Separates(slug, Sections(want))
    ensures forall i :: 0 <= i < |want| ==>
              slug(want[i].section) in FilesOf(slug, files, want) && FilesOf(slug, files, want)[slug(want[i].section)] == want[i]
    ensures forall x :: x !in ListOf(slug, want) ==>
              (x in FilesOf(slug, files, want) <==> x in files)
              && (x in files ==> FilesOf(slug, files, want)[x] == files[x])
  {
    if want != [] {
      var init := want[..|want| - 1];
      assert want == init + [want[|want| - 1]];
      assert Sections(init) <= Sections(want);
      FilesAre(slug, files, init);
      var list, before := ListOf(slug, want), ListOf(slug, init);
      assert list == before + [slug(want[|want| - 1].section)];
    }
  }

  // ---- procd ----

  // Given a declaration, procd keeps a process whose declaration is what it was, and
  // otherwise starts one. The declaration an instance makes is part of its fingerprint.
  function ProcFor(decl: Fp -> string, running: Running, fp: Fp, pid: nat): Proc {
    if fp.section in running && decl(running[fp.section].fp) == decl(fp) then running[fp.section] else Proc(fp, pid)
  }

  // Given all new declarations, procd also stops what is not declared.
  function Declared(decl: Fp -> string, running: Running, want: Wanted, next: nat): Running {
    if want == [] then map[]
    else
      var n := |want| - 1;
      Declared(decl, running, want[..n], next)[want[n].section := ProcFor(decl, running, want[n], next + n)]
  }

  lemma {:induction false} DeclaredKeys(decl: Fp -> string, running: Running, want: Wanted, next: nat)
    ensures Declared(decl, running, want, next).Keys == Sections(want)
  {
    if want != [] {
      var n := |want| - 1;
      assert want == want[..n] + [want[n]];
      DeclaredKeys(decl, running, want[..n], next);
      assert Sections(want) == Sections(want[..n]) + {want[n].section};
    }
  }

  lemma {:induction false} DeclaredAt(decl: Fp -> string, running: Running, want: Wanted, next: nat, i: nat)
    requires WellFormed(want) && i < |want|
    ensures want[i].section in Declared(decl, running, want, next)
    ensures Declared(decl, running, want, next)[want[i].section] == ProcFor(decl, running, want[i], next + i)
    decreases |want|
  {
    var n := |want| - 1;
    if i < n {
      assert want[i].section != want[n].section;
      DeclaredAt(decl, running, want[..n], next, i);
    }
  }

  lemma DeclaredIs(decl: Fp -> string, running: Running, want: Wanted, next: nat)
    requires WellFormed(want)
    ensures Declared(decl, running, want, next).Keys == Sections(want)
    ensures forall i :: 0 <= i < |want| ==>
              want[i].section in Declared(decl, running, want, next)
              && Declared(decl, running, want, next)[want[i].section] == ProcFor(decl, running, want[i], next + i)
  {
    DeclaredKeys(decl, running, want, next);
    forall i | 0 <= i < |want|
      ensures want[i].section in Declared(decl, running, want, next)
      ensures Declared(decl, running, want, next)[want[i].section] == ProcFor(decl, running, want[i], next + i)
    {
      DeclaredAt(decl, running, want, next, i);
    }
  }

  // ---- The record and the system ----

  // The list file, the fingerprint files, what procd runs, and the next process id.
  datatype System = System(list: seq<string>, files: Files, running: Running, next: nat)

  // The files of running instances say what they were started with.
  ghost predicate Honest(slug: Slug, sys: System) {
    && (forall x :: x in sys.files ==> slug(sys.files[x].section) == x)
    && (forall s :: s in sys.running ==>
          && sys.running[s].fp.section == s != "" && sys.running[s].pid < sys.next
          && slug(s) in sys.files && sys.files[slug(s)] == sys.running[s].fp)
  }

  // The record describes what procd runs: besides, the list has exactly the slugs of
  // the running instances, once each.
  ghost predicate Describes(slug: Slug, sys: System) {
    && Honest(slug, sys)
    && (forall i, j :: 0 <= i < j < |sys.list| ==> sys.list[i] != sys.list[j])
    && (forall x :: x in sys.list <==> exists s :: s in sys.running && slug(s) == x)
  }

  // What runs is what is wanted, with these fingerprints.
  ghost predicate Serves(sys: System, want: Wanted) {
    && sys.running.Keys == Sections(want)
    && forall i :: 0 <= i < |want| ==> sys.running[want[i].section].fp == want[i]
  }

  ghost predicate Ready(slug: Slug, sys: System, want: Wanted) {
    Honest(slug, sys) && WellFormed(want) && Separates(slug, Sections(want) + sys.running.Keys)
  }

  // ---- What the phases delete ----

  function Removed(files: Files, list: seq<string>, newList: seq<string>): seq<string> {
    if list == [] then []
    else
      var x := list[|list| - 1];
      Removed(files, list[..|list| - 1], newList)
      + if x != "" && x !in newList && x in files && files[x].section != "" then [files[x].section] else []
  }

  function Changed(files: Files, tmp: Files, newList: seq<string>): seq<string>
    requires forall x :: x in newList ==> x in tmp
  {
    if newList == [] then []
    else
      var x := newList[|newList| - 1];
      Changed(files, tmp, newList[..|newList| - 1])
      + if x != "" && x in files && files[x] != tmp[x] && tmp[x].section != "" then [tmp[x].section] else []
  }

  lemma {:induction false} RemovedIs(files: Files, list: seq<string>, newList: seq<string>, s: string)
    ensures s in Removed(files, list, newList)
       <==> exists x :: x in list && x != "" && x !in newList && x in files && files[x].section == s != ""
  {
    if list != [] {
      RemovedIs(files, list[..|list| - 1], newList, s);
      assert list == list[..|list| - 1] + [list[|list| - 1]];
    }
  }

  lemma {:induction false} ChangedIs(files: Files, tmp: Files, newList: seq<string>, s: string)
    requires forall x :: x in newList ==> x in tmp
    ensures s in Changed(files, tmp, newList)
       <==> exists x :: x in newList && x != "" && x in files && files[x] != tmp[x] && tmp[x].section == s != ""
  {
    if newList != [] {
      ChangedIs(files, tmp, newList[..|newList| - 1], s);
      assert newList == newList[..|newList| - 1] + [newList[|newList| - 1]];
    }
  }

  function Without(running: Running, deleted: seq<string>): Running {
    map s | s in running && s !in deleted :: running[s]
  }

  // ---- The two reloads, as functions of the system ----

  // Nothing the hot path compares differs.
  predicate Matches(slug: Slug, sys: System, want: Wanted) {
    && multiset(sys.list) == multiset(ListOf(slug, want))
    && forall i :: 0 <= i < |want| ==>
         slug(want[i].section) in sys.files && sys.files[slug(want[i].section)] == want[i]
  }

  ghost function Deleted(slug: Slug, sys: System, want: Wanted): seq<string>
    requires WellFormed(want) && Separates(slug, Sections(want))
  {
    FilesAre(slug, map[], want);
    Removed(sys.files, sys.list, ListOf(slug, want)) + Changed(sys.files, FilesOf(slug, map[], want), ListOf(slug, want))
  }

  ghost function FullReload(slug: Slug, decl: Fp -> string, sys: System, want: Wanted): System
    requires WellFormed(want) && Separates(slug, Sections(want))
  {
    System(ListOf(slug, want), FilesOf(slug, sys.files, want),
           Declared(decl, Without(sys.running, Deleted(slug, sys, want)), want, sys.next), sys.next + |want|)
  }

  // ---- What a full reload achieves ----

  // Of the running instances, the wanted ones whose fingerprint is the same are left
  // alone; the wanted ones that changed are deleted.
  lemma DeletedOfWanted(slug: Slug, sys: System, want: Wanted, i: nat)
    requires Ready(slug, sys, want) && i < |want| && want[i].section in sys.running
    ensures want[i].section in Deleted(slug, sys, want) <==> sys.running[want[i].section].fp != want[i]
  {
    var s, tmp, list := want[i].section, FilesOf(slug, map[], want), ListOf(slug, want);
    FilesAre(slug, map[], want);
    RemovedIs(sys.files, sys.list, list, s);
    ChangedIs(sys.files, tmp, list, s);
    assert list[i] == slug(s) && tmp[slug(s)] == want[i];
    assert s in Removed(sys.files, sys.list, list) ==> slug(s) !in list;
    forall x | x in list && tmp[x].section == s ensures x == slug(s) {
      var j :| 0 <= j < |list| && list[j] == x;
      assert tmp[x] == want[j];
    }
  }

  // The ones no longer wanted are deleted, if the record describes what runs.
  lemma DeletedOfUnwanted(slug: Slug, sys: System, want: Wanted, s: string)
    requires Ready(slug, sys, want) && Describes(slug, sys) && s in sys.running && s !in Sections(want)
    ensures s in Deleted(slug, sys, want)
  {
    FilesAre(slug, map[], want);
    RemovedIs(sys.files, sys.list, ListOf(slug, want), s);
    assert slug(s) in sys.list;
  }

  lemma FullReloadKeeps(slug: Slug, decl: Fp -> string, sys: System, want: Wanted, i: nat)
    requires Ready(slug, sys, want) && i < |want|
    ensures var s, after := want[i].section, FullReload(slug, decl, sys, want).running;
            && s in after && after[s].fp == want[i] && after[s].pid < sys.next + |want|
            && (s in sys.running ==> (after[s].pid == sys.running[s].pid <==> sys.running[s].fp == want[i]))
            && (s !in sys.running ==> after[s].pid >= sys.next)
  {
    DeclaredIs(decl, Without(sys.running, Deleted(slug, sys, want)), want, sys.next);
    if want[i].section in sys.running {
      DeletedOfWanted(slug, sys, want, i);
    }
  }

  lemma FilesStayKeyed(slug: Slug, files: Files, want: Wanted)
    requires WellFormed(want) && Separates(slug, Sections(want))
    requires forall x :: x in files ==> slug(files[x].section) == x
    ensures forall x :: x in FilesOf(slug, files, want) ==> slug(FilesOf(slug, files, want)[x].section) == x
  {
    FilesAre(slug, files, want);
    var list := ListOf(slug, want);
    forall x | x in FilesOf(slug, files, want) ensures slug(FilesOf(slug, files, want)[x].section) == x {
      if x in list {
        var i :| 0 <= i < |want| && list[i] == x;
      }
    }
  }

  // The list of what is wanted names exactly what runs, if that is what runs.
  lemma ListNamesSections(slug: Slug, running: Running, want: Wanted)
    requires WellFormed(want) && Separates(slug, Sections(want)) && running.Keys == Sections(want)
    ensures var list := ListOf(slug, want);
            && (forall i, j :: 0 <= i < j < |list| ==> list[i] != list[j])
            && forall x :: x in list <==> exists s :: s in running && slug(s) == x
  {
    var list := ListOf(slug, want);
    forall x ensures x in list <==> exists s :: s in running && slug(s) == x {
      if x in list {
        var i :| 0 <= i < |want| && list[i] == x;
        assert want[i].section in running;
      }
      if s :| s in running && slug(s) == x {
        var i :| 0 <= i < |want| && want[i].section == s;
        assert list[i] == x;
      }
    }
    forall i, j | 0 <= i < j < |list| ensures list[i] != list[j] {
      assert want[i].section in Sections(want) && want[j].section in Sections(want);
    }
  }

  // A full reload brings what is wanted to run, and the record to describe it.
  lemma FullReloadDescribes(slug: Slug, decl: Fp -> string, sys: System, want: Wanted)
    requires Ready(slug, sys, want)
    ensures Describes(slug, FullReload(slug, decl, sys, want)) && Serves(FullReload(slug, decl, sys, want), want)
  {
    var after := FullReload(slug, decl, sys, want);
    DeclaredIs(decl, Without(sys.running, Deleted(slug, sys, want)), want, sys.next);
    FilesAre(slug, sys.files, want);
    FilesStayKeyed(slug, sys.files, want);
    ListNamesSections(slug, after.running, want);
    forall i | 0 <= i < |want|
      ensures after.running[want[i].section].fp == want[i] && after.running[want[i].section].pid < after.next
      ensures after.files[slug(want[i].section)] == want[i]
    {
      FullReloadKeeps(slug, decl, sys, want, i);
    }
    assert after.running.Keys == Sections(want);
  }

  lemma {:induction false} OnceEach(s: seq<string>, x: string)
    requires forall i, j :: 0 <= i < j < |s| ==> s[i] != s[j]
    ensures multiset(s)[x] == if x in s then 1 else 0
  {
    if s != [] {
      var init, last := s[..|s| - 1], s[|s| - 1];
      assert s == init + [last];
      OnceEach(init, x);
    }
  }

  lemma SameMembersSameMultiset(s: seq<string>, t: seq<string>)
    requires forall i, j :: 0 <= i < j < |s| ==> s[i] != s[j]
    requires forall i, j :: 0 <= i < j < |t| ==> t[i] != t[j]
    requires forall x :: x in s <==> x in t
    ensures multiset(s) == multiset(t)
  {
    forall x ensures multiset(s)[x] == multiset(t)[x] {
      OnceEach(s, x);
      OnceEach(t, x);
    }
  }

  lemma MatchingServes(slug: Slug, sys: System, want: Wanted)
    requires Ready(slug, sys, want) && Describes(slug, sys) && Matches(slug, sys, want)
    ensures Serves(sys, want)
  {
    var list := ListOf(slug, want);
    forall s | s in sys.running ensures s in Sections(want) {
      assert slug(s) in sys.list && slug(s) in multiset(sys.list);
      var i :| 0 <= i < |want| && list[i] == slug(s);
      assert want[i].section in Sections(want);
    }
    forall i | 0 <= i < |want| ensures want[i].section in sys.running && sys.running[want[i].section].fp == want[i] {
      assert list[i] in multiset(list) && list[i] in sys.list;
      var s :| s in sys.running && slug(s) == list[i];
      assert want[i].section in Sections(want);
    }
  }

  lemma ServingMatches(slug: Slug, sys: System, want: Wanted)
    requires Ready(slug, sys, want) && Describes(slug, sys) && Serves(sys, want)
    ensures Matches(slug, sys, want)
  {
    ListNamesSections(slug, sys.running, want);
    SameMembersSameMultiset(sys.list, ListOf(slug, want));
    forall i | 0 <= i < |want| ensures slug(want[i].section) in sys.files && sys.files[slug(want[i].section)] == want[i] {
      assert want[i].section in sys.running;
    }
  }

  // The hot path is taken exactly when the wanted instances and fingerprints are those
  // that run, as long as the record describes what runs.
  lemma HotExactlyWhenServed(slug: Slug, sys: System, want: Wanted)
    requires Ready(slug, sys, want) && Describes(slug, sys)
    ensures Matches(slug, sys, want) <==> Serves(sys, want)
  {
    if Matches(slug, sys, want) {
      MatchingServes(slug, sys, want);
    }
    if Serves(sys, want) {
      ServingMatches(slug, sys, want);
    }
  }

  // A full reload deletes, of what runs, exactly the removed and the changed.
  lemma DeletesExactly(slug: Slug, sys: System, want: Wanted, s: string)
    requires Ready(slug, sys, want) && Describes(slug, sys) && s in sys.running
    ensures s in Deleted(slug, sys, want) <==> sys.running[s].fp !in want
  {
    if s in Sections(want) {
      var i :| 0 <= i < |want| && want[i].section == s;
      DeletedOfWanted(slug, sys, want, i);
    } else {
      DeletedOfUnwanted(slug, sys, want, s);
    }
  }

  // ---- Any sequence of edits, each followed by a reload ----

  // What a successful reload makes of the system.
  ghost function AfterReload(slug: Slug, decl: Fp -> string, hotReload: bool, sys: System, want: Wanted): System
    requires WellFormed(want) && Separates(slug, Sections(want))
  {
    if hotReload && Matches(slug, sys, want) then sys.(list := ListOf(slug, want)) else FullReload(slug, decl, sys, want)
  }

  lemma ReloadDescribes(slug: Slug, decl: Fp -> string, hotReload: bool, sys: System, want: Wanted)
    requires Ready(slug, sys, want) && Describes(slug, sys)
    ensures var after := AfterReload(slug, decl, hotReload, sys, want);
            && Describes(slug, after) && Serves(after, want)
            && forall s :: s in sys.running && sys.running[s].fp in want ==> s in after.running && after.running[s] == sys.running[s]
  {
    var after := AfterReload(slug, decl, hotReload, sys, want);
    if hotReload && Matches(slug, sys, want) {
      MatchingServes(slug, sys, want);
      ListNamesSections(slug, sys.running, want);
    } else {
      FullReloadDescribes(slug, decl, sys, want);
      forall s | s in sys.running && sys.running[s].fp in want
        ensures s in after.running && after.running[s] == sys.running[s]
      {
        var i :| 0 <= i < |want| && want[i] == sys.running[s].fp;
        FullReloadKeeps(slug, decl, sys, want, i);
      }
    }
  }

  // The edited configurations of a run, each with whether hot reload is on.
  datatype Edit = Edit(want: Wanted, hotReload: bool)

  ghost predicate RunnableEdits(slug: Slug, all: set<string>, edits: seq<Edit>) {
    Separates(slug, all) && forall e :: e in edits ==> WellFormed(e.want) && Sections(e.want) <= all
  }

  ghost function AfterEdits(slug: Slug, decl: Fp -> string, all: set<string>, sys: System, edits: seq<Edit>): System
    requires RunnableEdits(slug, all, edits)
  {
    if edits == [] then sys
    else
      var last := edits[|edits| - 1];
      AfterReload(slug, decl, last.hotReload, AfterEdits(slug, decl, all, sys, edits[..|edits| - 1]), last.want)
  }

  // The record goes on describing what runs, and what runs is what was last asked for.
  lemma {:induction false} EditsKeepTheDescription(slug: Slug, decl: Fp -> string, all: set<string>, sys: System, edits: seq<Edit>)
    requires RunnableEdits(slug, all, edits) && Describes(slug, sys) && sys.running.Keys <= all
    ensures var after := AfterEdits(slug, decl, all, sys, edits);
            && Describes(slug, after) && after.running.Keys <= all
            && (edits != [] ==> Serves(after, edits[|edits| - 1].want))
  {
    if edits != [] {
      var init, last := edits[..|edits| - 1], edits[|edits| - 1];
      EditsKeepTheDescription(slug, decl, all, sys, init);
      assert last in edits;
      ReloadDescribes(slug, decl, last.hotReload, AfterEdits(slug, decl, all, sys, init), last.want);
    }
  }

  // An instance that no edit touches keeps its process throughout.
  lemma {:induction false} UntouchedInstancesKeepTheirProcess(slug: Slug, decl: Fp -> string, all: set<string>, sys: System,
                                                              edits: seq<Edit>, s: string)
    requires RunnableEdits(slug, all, edits) && Describes(slug, sys) && sys.running.Keys <= all
    requires s in sys.running && forall e :: e in edits ==> sys.running[s].fp in e.want
    ensures var after := AfterEdits(slug, decl, all, sys, edits); s in after.running && after.running[s] == sys.running[s]
  {
    if edits != [] {
      var init, last := edits[..|edits| - 1], edits[|edits| - 1];
      UntouchedInstancesKeepTheirProcess(slug, decl, all, sys, init, s);
      EditsKeepTheDescription(slug, decl, all, sys, init);
      assert last in edits;
      ReloadDescribes(slug, decl, last.hotReload, AfterEdits(slug, decl, all, sys, init), last.want);
    }
  }

  // ---- Stopping and enabling again ----

  // Stopping leaves the record as it was. If what is then asked for is what ran before,
  // and hot reload is on, a reload finds nothing to do and nothing is started.
  lemma ReloadAfterStop(slug: Slug, decl: Fp -> string, hotReload: bool, sys: System, want: Wanted)
    requires Ready(slug, sys, want) && Describes(slug, sys)
    ensures var stopped := sys.(running := map[]);
            Serves(AfterReload(slug, decl, hotReload, stopped, want), want) <==> !hotReload || !Serves(sys, want) || want == []
  {
    var stopped := sys.(running := map[]);
    HotExactlyWhenServed(slug, sys, want);
    if hotReload && Serves(sys, want) {
      if want != [] {
        assert want[0].section in Sections(want);
      }
    } else {
      FullReloadDescribes(slug, decl, stopped, want);
    }
  }

  // ---- The service ----

  // qnatter_config_get_bool: an absent option takes the default, and whatever is not a
  // word for yes comes out as 0, the empty default included.
  function ConfigBool(raw: Option<string>, default: string): (r: string)
    ensures r == "0" || r == "1"
  {
    var value := if raw.Some? then raw.value else default;
    if value == "1" || value == "on" || value == "true" || value == "yes" || value == "enabled" then "1" else "0"
  }

  // Only these words, read or taken by default, mean yes.
  lemma YesWords(raw: Option<string>, default: string)
    ensures var value := match raw case Some(v) => v case None => default;
            ConfigBool(raw, default) == "1" <==> value in {"1", "on", "true", "yes", "enabled"}
  {
  }

  // A reload asks with the empty default, so a missing global section stops the service.
  lemma MissingSectionStops()
    ensures ConfigBool(None, "") == "0"
  {
  }

  datatype Outcome = StoppedAll | Skipped | Hot | Reloaded | Failed

  class Service {
    const slug: Slug
    const decl: Fp -> string
    var list: Option<seq<string>>
    var files: Files
    var running: Running
    var next: nat

    constructor (slug: Slug, decl: Fp -> string)
      ensures this.slug == slug && this.decl == decl && Value() == System([], map[], map[], 0)
    {
      this.slug, this.decl, list, files, running, next := slug, decl, None, map[], map[], 0;
    }

    // A missing list file counts as an empty one.
    ghost function Value(): System
      reads this
    {
      System(if list.Some? then list.value else [], files, running, next)
    }

    // procd kills everything; the record stays.
    method Stop()
      modifies this`running
      ensures running == map[]
    {
      running := map[];
    }

    // What the preparation writes to the temporary directory.
    method Prepare(want: Wanted) returns (newList: seq<string>, tmp: Files)
      ensures newList == ListOf(slug, want) && tmp == FilesOf(slug, map[], want)
    {
      newList, tmp := [], map[];
      for i := 0 to |want|
        invariant newList == ListOf(slug, want)[..i] && tmp == FilesOf(slug, map[], want[..i])
      {
        assert want[..i + 1][..i] == want[..i];
        tmp := tmp[slug(want[i].section) := want[i]];
        newList := newList + [slug(want[i].section)];
      }
      assert want[..|want|] == want;
    }

    method HotReload(want: Wanted, prepareFails: bool) returns (hot: bool)
      requires WellFormed(want) && Separates(slug, Sections(want))
      modifies this`list
      ensures hot <==> !prepareFails && Matches(slug, old(Value()), want)
      ensures list == if hot then Some(ListOf(slug, want)) else old(list)
    {
      if prepareFails {
        return false;
      }
      var newList, tmp := Prepare(want);
      var oldList := if list.Some? then list.value else [];
      if multiset(oldList) != multiset(newList) {
        return false;
      }
      FilesAre(slug, map[], want);
      for i := 0 to |newList|
        invariant forall j :: 0 <= j < i ==> newList[j] in files && files[newList[j]] == want[j]
      {
        assert newList[i] == slug(want[i].section) && tmp[newList[i]] == want[i];
        if !(newList[i] in files && newList[i] in tmp && files[newList[i]] == tmp[newList[i]]) {
          return false;
        }
      }
      list := Some(newList);
      hot := true;
    }

    // ubus call service delete: kills the instance if it runs.
    method Delete(section: string)
      modifies this`running
      ensures running == Without(old(running), [section])
    {
      running := map s | s in running && s != section :: running[s];
    }

    method StopRemoved(oldList: seq<string>, newList: seq<string>) returns (deleted: seq<string>)
      modifies this`running
      ensures deleted == Removed(files, oldList, newList) && running == Without(old(running), deleted)
    {
      deleted := [];
      for i := 0 to |oldList|
        invariant deleted == Removed(files, oldList[..i], newList) && running == Without(old(running), deleted)
      {
        var x := oldList[i];
        assert oldList[..i + 1][..i] == oldList[..i] && deleted + [] == deleted;
        if x != "" && x !in newList && x in files && files[x].section != "" {
          Delete(files[x].section);
          deleted := deleted + [files[x].section];
        }
      }
      assert oldList[..|oldList|] == oldList;
    }

    method StopChanged(tmp: Files, newList: seq<string>) returns (deleted: seq<string>)
      requires forall x :: x in newList ==> x in tmp
      modifies this`running
      ensures deleted == Changed(files, tmp, newList) && running == Without(old(running), deleted)
    {
      deleted := [];
      for i := 0 to |newList|
        invariant deleted == Changed(files, tmp, newList[..i]) && running == Without(old(running), deleted)
      {
        var x := newList[i];
        assert newList[..i + 1][..i] == newList[..i] && deleted + [] == deleted;
        if x != "" && x in files && files[x] != tmp[x] && tmp[x].section != "" {
          Delete(tmp[x].section);
          deleted := deleted + [tmp[x].section];
        }
      }
      assert newList[..|newList|] == newList;
    }

    // A start writes each instance's file and line of the list ...
    method WriteRecord(want: Wanted)
      modifies this`files, this`list
      ensures files == FilesOf(slug, old(files), want) && list == Some(ListOf(slug, want))
    {
      var newList: seq<string> := [];
      for i := 0 to |want|
        invariant newList == ListOf(slug, want)[..i] && files == FilesOf(slug, old(files), want[..i])
      {
        assert want[..i + 1][..i] == want[..i];
        files := files[slug(want[i].section) := want[i]];
        newList := newList + [slug(want[i].section)];
      }
      assert want[..|want|] == want && ListOf(slug, want)[..|want|] == ListOf(slug, want);
      list := Some(newList);
    }

    // ... and declares the instance to procd.
    method Declare(want: Wanted)
      modifies this`running, this`next
      ensures running == Declared(decl, old(running), want, old(next)) && next == old(next) + |want|
    {
      var declared: Running := map[];
      for i := 0 to |want|
        invariant declared == Declared(decl, running, want[..i], next) && running == old(running) && next == old(next)
      {
        assert want[..i + 1][..i] == want[..i];
        declared := declared[want[i].section := ProcFor(decl, running, want[i], next + i)];
      }
      assert want[..|want|] == want;
      running, next := declared, next + |want|;
    }

    // Phases 2 and 3.
    method StopStale(oldList: seq<string>, newList: seq<string>, tmp: Files) returns (deleted: seq<string>)
      requires forall x :: x in newList ==> x in tmp
      modifies this`running
      ensures deleted == Removed(files, oldList, newList) + Changed(files, tmp, newList)
      ensures running == Without(old(running), deleted)
    {
      var removed := StopRemoved(oldList, newList);
      var changed := StopChanged(tmp, newList);
      deleted := removed + changed;
    }

    // Phases 1 to 4. A start that fails leaves the system in any state. flushed says
    // whether all nft and routing rules of the package have been removed.
    method ReloadFully(want: Wanted, prepareFails: bool, startFails: bool) returns (ok: bool, deleted: seq<string>, flushed: bool)
      requires WellFormed(want) && Separates(slug, Sections(want))
      modifies this
      ensures ok == (!prepareFails && !startFails)
      ensures flushed <==> !prepareFails && want == []
      ensures ok ==> Value() == FullReload(slug, decl, old(Value()), want) && deleted == Deleted(slug, old(Value()), want)
      ensures prepareFails ==> Value() == old(Value())
    {
      if list.None? {
        list := Some([]);
      }
      if prepareFails {
        return false, [], false;
      }
      var newList, tmp := Prepare(want);
      FilesAre(slug, map[], want);
      deleted := StopStale(list.value, newList, tmp);
      flushed := newList == [];
      if startFails {
        list, files, running, next := *, *, *, *;
        return false, deleted, flushed;
      }
      WriteRecord(want);
      Declare(want);
      list := Some(newList);
      ok := true;
    }

    // enabled is the raw option of the global section. The instances are prepared once to
    // see whether the hot path will do, and again for a full reload; either may fail.
    method ReloadService(enabled: Option<string>, locked: bool, hotReload: bool, want: Wanted,
                         hotPrepareFails: bool, prepareFails: bool, startFails: bool)
      returns (outcome: Outcome, deleted: seq<string>, flushed: bool)
      requires WellFormed(want) && Separates(slug, Sections(want))
      modifies this
      ensures outcome.StoppedAll? <==> ConfigBool(enabled, "") == "0"
      ensures outcome.StoppedAll? ==> Value() == old(Value()).(running := map[])
      ensures outcome.Skipped? <==> ConfigBool(enabled, "") == "1" && locked
      ensures outcome.Skipped? ==> Value() == old(Value())
      ensures outcome.Hot? <==> ConfigBool(enabled, "") == "1" && !locked && hotReload && !hotPrepareFails && Matches(slug, old(Value()), want)
      ensures outcome.Hot? ==> Value() == old(Value()).(list := ListOf(slug, want)) && deleted == []
      ensures outcome.Reloaded? ==> Value() == FullReload(slug, decl, old(Value()), want) && deleted == Deleted(slug, old(Value()), want)
      ensures outcome.Failed? <==> ConfigBool(enabled, "") == "1" && !locked && !outcome.Hot? && (prepareFails || startFails)
      ensures outcome.Failed? && prepareFails ==> Value() == old(Value())
      ensures ConfigBool(enabled, "") == "1" && !locked && !hotPrepareFails && !prepareFails && !startFails ==>
                Value() == AfterReload(slug, decl, hotReload, old(Value()), want)
      ensures flushed <==> outcome.StoppedAll? || ((outcome.Reloaded? || outcome.Failed?) && !prepareFails && want == [])
    {
      deleted, flushed := [], false;
      var on := ConfigBool(enabled, "");
      if on == "" {
        on := "1";
      }
      if on != "1" {
        Stop();
        return StoppedAll, [], true;
      }
      if locked {
        return Skipped, [], false;
      }
      if hotReload {
        var hot := HotReload(want, hotPrepareFails);
        if hot {
          return Hot, [], false;
        }
      }
      var ok;
      ok, deleted, flushed := ReloadFully(want, prepareFails, startFails);
      outcome := if ok then Reloaded else Failed;
    }
  }
}
