/** Install of internal/bookplugin/sync.go: bringing a plugin directory to what a published set wants. */
module PluginInstall {
  import opened Common
  import opened Text

  /** Paths and their contents. */
  type Files = map<string, string>

  datatype Receipt = Receipt(setId: string, hash: string)

  /** What a name in the plugin root can be. A receipt that is missing or unreadable is none. */
  datatype Node = Plugin(receipt: Option<Receipt>, files: Files) | Link | PlainFile

  type Tree = map<string, Node>

  /** An entry of the report; files is what rendering a valid recipe yields. */
  datatype Entry = Entry(id: string, supported: bool, files: Option<Files>)

  datatype Report = Report(schema: string, setId: string, entries: seq<Entry>)

  datatype SyncResult = SyncResult(installed: nat, removed: nat, kept: nat)

  datatype Failure =
    BadManifest | RootIsLink | Locked | Duplicate | Unrenderable | ForeignPlugin | OccupiedPath | DiskFailed

  /** The names for which a step of the disk fails. */
  datatype Disk = Disk(stage: set<string>, backup: set<string>, swap: set<string>, cleanup: set<string>,
                       remove: set<string>)

  const NO_FAULTS := Disk({}, {}, {}, {}, {})

  const SCHEMA := "shadow.hub.plugins/v1"

  predicate IsRelay(name: string) { StartsWith(name, "relay_") }

  /** ^[a-z0-9][a-z0-9_]{0,95}$ */
  predicate Identifier(s: string) {
    0 < |s| <= 96 && s[0] != '_' && forall c | c in s :: 'a' <= c <= 'z' || '0' <= c <= '9' || c == '_'
  }

  // ---- what is wanted ----

  /** Only an id of the relay can become a plugin. */
  function Rendered(e: Entry): Option<Files> { if IsRelay(e.id) && Identifier(e.id) then e.files else None }

  function Prepared(entries: seq<Entry>): Result<map<string, Files>, Failure> {
    if entries == [] then Ok(map[])
    else
      var before, e := Prepared(entries[..|entries| - 1]), entries[|entries| - 1];
      if before.Err? || !e.supported then before
      else if e.id in before.value then Err(Duplicate)
      else if Rendered(e).None? then Err(Unrenderable)
      else Ok(before.value[e.id := Rendered(e).value])
  }

  /** Unsupported rules never become code: exactly the supported entries are wanted, each once. */
  lemma {:induction false} PreparedHolds(entries: seq<Entry>)
    requires Prepared(entries).Ok?
    ensures forall id | id in Prepared(entries).value ::
              IsRelay(id) && exists e ::
                  e in entries && e.supported && e.id == id && Rendered(e) == Some(Prepared(entries).value[id])
    ensures forall e | e in entries && e.supported :: e.id in Prepared(entries).value
    ensures forall i, j | 0 <= i < j < |entries| && entries[i].supported && entries[j].supported ::
              entries[i].id != entries[j].id
  {
    if entries != [] {
      var n := |entries| - 1;
      PreparedHolds(entries[..n]);
      var e, before := entries[n], Prepared(entries[..n]).value;
      assert entries == entries[..n] + [e];
      forall id | id in Prepared(entries).value
        ensures IsRelay(id) && exists x ::
                  x in entries && x.supported && x.id == id && Rendered(x) == Some(Prepared(entries).value[id])
      {
        if id in before && Prepared(entries).value[id] == before[id] {
          var x :| x in entries[..n] && x.supported && x.id == id && Rendered(x) == Some(before[id]);
          assert x in entries;
        } else {
          assert e in entries && e.id == id;
        }
      }
    }
  }

  // ---- who owns what ----

  predicate Owns(tree: Tree, setId: string, name: string) {
    name in tree && IsRelay(name) && tree[name].Plugin? && tree[name].receipt.Some?
      && tree[name].receipt.value.setId == setId
  }

  function Owned(tree: Tree, setId: string): set<string> { set name | name in tree && Owns(tree, setId, name) }

  /** A wanted name that is a link, or a directory of somebody else. */
  predicate Refused(tree: Tree, setId: string, wanted: map<string, Files>) {
    exists name :: name in wanted && name in tree && !tree[name].PlainFile? && !Owns(tree, setId, name)
  }

  /** A wanted name that a plain file takes. */
  predicate Blocks(tree: Tree, wanted: map<string, Files>, name: string) {
    name in wanted && name in tree && tree[name].PlainFile?
  }

  predicate Occupied(tree: Tree, wanted: map<string, Files>) {
    exists name :: name in wanted && Blocks(tree, wanted, name)
  }

  type Hash = Files -> string

  function Fresh(setId: string, hash: Hash, files: Files): Node { Plugin(Some(Receipt(setId, hash(files))), files) }

  predicate Current(tree: Tree, setId: string, hash: Hash, wanted: map<string, Files>, name: string) {
    name in wanted && Owns(tree, setId, name) && tree[name].receipt.value.hash == hash(wanted[name])
  }

  function After(tree: Tree, setId: string, hash: Hash, wanted: map<string, Files>, name: string): Option<Node> {
    if name in wanted then
      Some(if Current(tree, setId, hash, wanted, name) then tree[name] else Fresh(setId, hash, wanted[name]))
    else if name in tree && !Owns(tree, setId, name) then Some(tree[name])
    else None
  }

  /** The tree that a complete install leaves. */
  function Target(tree: Tree, setId: string, hash: Hash, wanted: map<string, Files>): Tree {
    map name | name in tree.Keys + wanted.Keys && After(tree, setId, hash, wanted, name).Some?
      :: After(tree, setId, hash, wanted, name).value
  }

  function At(tree: Tree, name: string): Option<Node> { if name in tree then Some(tree[name]) else None }

  lemma TargetAt(tree: Tree, setId: string, hash: Hash, wanted: map<string, Files>, name: string)
    ensures At(Target(tree, setId, hash, wanted), name) == After(tree, setId, hash, wanted, name)
  {
  }

  /** Every name is wholly as it was or wholly as the install wants it. */
  ghost predicate Between(was: Tree, now: Tree, target: Tree) {
    forall name: string :: At(now, name) == At(was, name) || At(now, name) == At(target, name)
  }

  /** What a name must be for a plugin to be written there. */
  predicate PlainName(s: string) {
    0 < |s| <= 96 && s[0] != '_' && forall i | 0 <= i < |s| :: 'a' <= s[i] <= 'z' || '0' <= s[i] <= '9' || s[i] == '_'
  }

  lemma RenderedExactly(e: Entry)
    ensures Rendered(e).Some? <==> |e.id| >= 6 && e.id[..6] == "relay_" && PlainName(e.id) && e.files.Some?
    ensures Rendered(e).Some? ==> Rendered(e) == e.files
  {
    assert forall i | 0 <= i < |e.id| :: e.id[i] in e.id;
  }

  ghost predicate Renderable(e: Entry) {
    e.supported ==> |e.id| >= 6 && e.id[..6] == "relay_" && PlainName(e.id) && e.files.Some?
  }

  ghost predicate NamesDiffer(entries: seq<Entry>) {
    forall i, j | 0 <= i < j < |entries| && entries[i].supported && entries[j].supported ::
      entries[i].id != entries[j].id
  }

  predicate Named(entries: seq<Entry>, id: string) {
    exists i | 0 <= i < |entries| :: entries[i].supported && entries[i].id == id
  }

  lemma PreparedNames(entries: seq<Entry>, id: string)
    requires Prepared(entries).Ok?
    ensures id in Prepared(entries).value <==> Named(entries, id)
  {
    PreparedHolds(entries);
    if id in Prepared(entries).value {
      var d :| d in entries && d.supported && d.id == id;
      var i :| 0 <= i < |entries| && entries[i] == d;
      assert entries[i].supported && entries[i].id == id;
    }
  }

  lemma NamesDifferNext(entries: seq<Entry>, n: nat)
    requires n + 1 == |entries| && NamesDiffer(entries[..n])
    ensures NamesDiffer(entries) <==> !entries[n].supported || !Named(entries[..n], entries[n].id)
  {
    var before, e := entries[..n], entries[n];
    assert forall i | 0 <= i < n :: before[i] == entries[i];
    if e.supported && Named(before, e.id) {
      var i :| 0 <= i < n && before[i].supported && before[i].id == e.id;
      assert entries[i].supported && entries[i].id == entries[n].id;
    }
  }

  /** The supported entries are prepared exactly when each has a relay's plain name and its files, and no two have one
      name. */
  lemma {:induction false} PreparedExactly(entries: seq<Entry>)
    ensures Prepared(entries).Ok? <==>
              NamesDiffer(entries) && forall i | 0 <= i < |entries| :: Renderable(entries[i])
  {
    if entries != [] {
      var n := |entries| - 1;
      PreparedExactly(entries[..n]);
      RenderedExactly(entries[n]);
      if Prepared(entries[..n]).Ok? {
        PreparedNames(entries[..n], entries[n].id);
        NamesDifferNext(entries, n);
      }
    }
  }

  /** An install is refused, before it touches anything, for a wanted name that is a link, a plugin without a receipt,
      or another set's plugin. */
  lemma RefusedExactly(tree: Tree, setId: string, wanted: map<string, Files>)
    requires forall id | id in wanted :: IsRelay(id)
    ensures Refused(tree, setId, wanted) <==>
              exists id :: id in wanted && id in tree
                && (tree[id].Link? || (tree[id].Plugin? && (tree[id].receipt == None
                                                            || tree[id].receipt.value.setId != setId)))
  {
    if Refused(tree, setId, wanted) {
      var id :| id in wanted && id in tree && !tree[id].PlainFile? && !Owns(tree, setId, id);
      assert || tree[id].Link?
             || (tree[id].Plugin? && (tree[id].receipt == None || tree[id].receipt.value.setId != setId));
    }
  }

  // ---- an install that a plain file stops ----

  /** The first id of a set in the order in which ids are installed. */
  predicate Least(id: string, ids: set<string>) {
    id in ids && forall other | other in ids && other != id :: TextLess(id, other)
  }

  lemma {:induction false} LeastExists(ids: set<string>) returns (id: string)
    requires ids != {}
    ensures Least(id, ids)
    decreases |ids|
  {
    id :| id in ids;
    if ids != {id} {
      var least := LeastExists(ids - {id});
      TextTotal(id, least);
      if TextLess(least, id) {
        id := least;
      } else {
        forall other | other in ids && other != id ensures TextLess(id, other) {
          if other != least { TextTransitive(id, least, other); }
        }
      }
    }
  }

  function Blocked(tree: Tree, wanted: map<string, Files>): set<string> {
    set name | name in wanted && Blocks(tree, wanted, name)
  }

  /** The names that are installed before id. */
  function Before(wanted: map<string, Files>, id: string): set<string> {
    set name | name in wanted && TextLess(name, id)
  }

  function Stop(tree: Tree, setId: string, hash: Hash, wanted: map<string, Files>, id: string,
                name: string): Option<Node> {
    if name in Before(wanted, id) then After(tree, setId, hash, wanted, name) else At(tree, name)
  }

  /** The tree that an install leaves which gets as far as id. */
  function Stopped(tree: Tree, setId: string, hash: Hash, wanted: map<string, Files>, id: string): Tree {
    map name | name in tree.Keys + wanted.Keys && Stop(tree, setId, hash, wanted, id, name).Some?
      :: Stop(tree, setId, hash, wanted, id, name).value
  }

  lemma StoppedAt(tree: Tree, setId: string, hash: Hash, wanted: map<string, Files>, id: string, name: string)
    ensures At(Stopped(tree, setId, hash, wanted, id), name) == Stop(tree, setId, hash, wanted, id, name)
  {
  }

  /** A refusal for a plain file leaves everything as it was exactly when all ids before that file are current. */
  lemma StoppedUnchanged(tree: Tree, setId: string, hash: Hash, wanted: map<string, Files>, id: string)
    requires !Refused(tree, setId, wanted) && Least(id, Blocked(tree, wanted))
    ensures Stopped(tree, setId, hash, wanted, id) == tree <==>
              forall name | name in Before(wanted, id) :: Current(tree, setId, hash, wanted, name)
  {
    var s := Stopped(tree, setId, hash, wanted, id);
    forall name: string ensures At(s, name) == Stop(tree, setId, hash, wanted, id, name) {
      StoppedAt(tree, setId, hash, wanted, id, name);
    }
    forall name | name in Before(wanted, id)
      ensures At(s, name) == At(tree, name) <==> Current(tree, setId, hash, wanted, name)
    {
      assert At(s, name) == After(tree, setId, hash, wanted, name);
    }
    if forall name | name in Before(wanted, id) :: Current(tree, setId, hash, wanted, name) {
      forall name: string ensures At(s, name) == At(tree, name) {
        if name !in Before(wanted, id) { assert At(s, name) == Stop(tree, setId, hash, wanted, id, name); }
      }
      SameTree(s, tree);
    } else {
      var name :| name in Before(wanted, id) && !Current(tree, setId, hash, wanted, name);
      assert At(s, name) != At(tree, name);
    }
  }

  /** The refusal can come late: two wanted ids, the second taken by a plain file, and the first
      is installed all the same. */
  lemma LateRefusal(hash: Hash, setId: string, files: Files)
    ensures var wanted: map<string, Files> := map["relay_a" := files, "relay_b" := files];
            var tree: Tree := map["relay_b" := PlainFile];
            && !Refused(tree, setId, wanted) && Least("relay_b", Blocked(tree, wanted))
            && Stopped(tree, setId, hash, wanted, "relay_b")
               == map["relay_a" := Fresh(setId, hash, files), "relay_b" := PlainFile]
  {
    var wanted: map<string, Files> := map["relay_a" := files, "relay_b" := files];
    var tree: Tree := map["relay_b" := PlainFile];
    LessAfter("relay_", "a", "b");
    assert "relay_" + "a" == "relay_a" && "relay_" + "b" == "relay_b";
    TextTotal("relay_b", "relay_b");
    assert Blocked(tree, wanted) == {"relay_b"};
    assert Before(wanted, "relay_b") == {"relay_a"};
    var s := Stopped(tree, setId, hash, wanted, "relay_b");
    var t: Tree := map["relay_a" := Fresh(setId, hash, files), "relay_b" := PlainFile];
    forall name: string ensures At(s, name) == At(t, name) {
      StoppedAt(tree, setId, hash, wanted, "relay_b", name);
    }
    SameTree(s, t);
  }

  lemma {:induction false} LessAfter(p: string, s: string, t: string)
    requires TextLess(s, t)
    ensures TextLess(p + s, p + t)
  {
    if p == [] {
      assert p + s == s && p + t == t;
    } else {
      assert (p + s)[1..] == p[1..] + s && (p + t)[1..] == p[1..] + t;
      LessAfter(p[1..], s, t);
    }
  }

  // ---- what the complete install means ----

  /** Afterwards the set owns exactly what is wanted, with the wanted hashes, and nobody else's name has changed. */
  lemma TargetConverges(tree: Tree, setId: string, hash: Hash, wanted: map<string, Files>)
    requires (forall id | id in wanted :: IsRelay(id)) && !Refused(tree, setId, wanted) && !Occupied(tree, wanted)
    ensures var t := Target(tree, setId, hash, wanted);
            && Owned(t, setId) == wanted.Keys
            && (forall id | id in wanted :: Current(t, setId, hash, wanted, id))
            && (forall name | name !in wanted && !Owns(tree, setId, name) :: At(t, name) == At(tree, name))
  {
    var t := Target(tree, setId, hash, wanted);
    forall name: string ensures Owns(t, setId, name) <==> name in wanted {
      TargetAt(tree, setId, hash, wanted, name);
    }
    forall name: string | name !in wanted && !Owns(tree, setId, name) ensures At(t, name) == At(tree, name) {
      TargetAt(tree, setId, hash, wanted, name);
    }
  }

  /** An identical rerun is admitted, changes nothing, and reports every wanted id as unchanged and nothing else. */
  lemma TargetIsStable(tree: Tree, setId: string, hash: Hash, wanted: map<string, Files>)
    requires (forall id | id in wanted :: IsRelay(id)) && !Refused(tree, setId, wanted) && !Occupied(tree, wanted)
    ensures var t := Target(tree, setId, hash, wanted);
            && !Refused(t, setId, wanted) && !Occupied(t, wanted) && Target(t, setId, hash, wanted) == t
            && forall now, counts :: Completed(t, now, setId, hash, wanted, counts) <==>
                 now == t && counts == SyncResult(0, 0, |wanted.Keys|)
  {
    var t := Target(tree, setId, hash, wanted);
    TargetConverges(tree, setId, hash, wanted);
    forall name: string ensures At(Target(t, setId, hash, wanted), name) == At(t, name) {
      TargetAt(t, setId, hash, wanted, name);
      TargetAt(tree, setId, hash, wanted, name);
      assert name in t && name !in wanted ==> name !in Owned(t, setId);
    }
    SameTree(Target(t, setId, hash, wanted), t);
    var current := set id | id in wanted && Current(t, setId, hash, wanted, id);
    assert current == wanted.Keys && wanted.Keys - current == {} && Owned(t, setId) - wanted.Keys == {};
  }

  /** What the set receives: a wanted id that was not current is a plugin with exactly the wanted files and a receipt
      that names the set and their hash; one that was current stays as it was. */
  lemma TargetHasFiles(tree: Tree, setId: string, hash: Hash, wanted: map<string, Files>, id: string)
    requires id in wanted
    ensures var t := Target(tree, setId, hash, wanted);
            && id in t
            && (Current(tree, setId, hash, wanted, id) ==> t[id] == tree[id])
            && (!Current(tree, setId, hash, wanted, id) ==>
                  && t[id].Plugin? && t[id].files == wanted[id]
                  && t[id].receipt == Some(Receipt(setId, hash(wanted[id]))))
  {
    TargetAt(tree, setId, hash, wanted, id);
  }

  /** A receipt vouches for the files beside it. */
  predicate Honest(hash: Hash, node: Node) {
    node.Plugin? && node.receipt.Some? ==> node.receipt.value.hash == hash(node.files)
  }

  ghost predicate AllHonest(hash: Hash, tree: Tree) { forall name | name in tree :: Honest(hash, tree[name]) }

  /** However far an install comes, every receipt still vouches for the files beside it. */
  lemma HonestyIsKept(was: Tree, now: Tree, setId: string, hash: Hash, wanted: map<string, Files>)
    requires AllHonest(hash, was) && Between(was, now, Target(was, setId, hash, wanted))
    ensures AllHonest(hash, now)
  {
    var target := Target(was, setId, hash, wanted);
    forall name | name in now ensures Honest(hash, now[name]) {
      assert At(now, name) == At(was, name) || At(now, name) == At(target, name);
      TargetAt(was, setId, hash, wanted, name);
      if name in wanted { TargetHasFiles(was, setId, hash, wanted, name); }
    }
  }

  /** When receipts are honest and the hash tells files apart, every wanted plugin, kept or
      new, has exactly its files. */
  lemma WantedFilesAreThere(tree: Tree, setId: string, hash: Hash, wanted: map<string, Files>, id: string)
    requires AllHonest(hash, tree) && id in wanted && forall a, b :: hash(a) == hash(b) ==> a == b
    ensures var t := Target(tree, setId, hash, wanted); id in t && t[id].Plugin? && t[id].files == wanted[id]
  {
    TargetHasFiles(tree, setId, hash, wanted, id);
  }

  lemma SameTree(a: Tree, b: Tree)
    requires forall name: string :: At(a, name) == At(b, name)
    ensures a == b
  {
    forall name: string ensures name in a <==> name in b {
      assert At(a, name) == At(b, name);
    }
    forall name: string | name in a ensures a[name] == b[name] {
      assert At(a, name) == At(b, name);
    }
  }

  /** Two sets without a common id do not notice each other: both are still admitted, and
      their order does not matter. */
  lemma InstallsCommute(tree: Tree, hash: Hash, setA: string, wantedA: map<string, Files>, setB: string,
                        wantedB: map<string, Files>)
    requires setA != setB && wantedA.Keys !! wantedB.Keys
    requires (forall id | id in wantedA :: IsRelay(id)) && (forall id | id in wantedB :: IsRelay(id))
    requires !Refused(tree, setA, wantedA) && !Occupied(tree, wantedA) && !Refused(tree, setB, wantedB)
             && !Occupied(tree, wantedB)
    ensures var a, b := Target(tree, setA, hash, wantedA), Target(tree, setB, hash, wantedB);
            && !Refused(b, setA, wantedA) && !Occupied(b, wantedA) && !Refused(a, setB, wantedB)
            && !Occupied(a, wantedB)
            && Target(b, setA, hash, wantedA) == Target(a, setB, hash, wantedB)
  {
    var a, b := Target(tree, setA, hash, wantedA), Target(tree, setB, hash, wantedB);
    forall name: string ensures At(Target(b, setA, hash, wantedA), name) == At(Target(a, setB, hash, wantedB), name) {
      TargetAt(tree, setA, hash, wantedA, name);
      TargetAt(tree, setB, hash, wantedB, name);
      TargetAt(b, setA, hash, wantedA, name);
      TargetAt(a, setB, hash, wantedB, name);
    }
    SameTree(Target(b, setA, hash, wantedA), Target(a, setB, hash, wantedB));
    StillAdmitted(tree, hash, setA, wantedA, setB, wantedB);
    StillAdmitted(tree, hash, setB, wantedB, setA, wantedA);
  }

  lemma StillAdmitted(tree: Tree, hash: Hash, setA: string, wantedA: map<string, Files>, setB: string,
                      wantedB: map<string, Files>)
    requires setA != setB && wantedA.Keys !! wantedB.Keys
    requires (forall id | id in wantedA :: IsRelay(id)) && !Refused(tree, setA, wantedA) && !Occupied(tree, wantedA)
    ensures var b := Target(tree, setB, hash, wantedB); !Refused(b, setA, wantedA) && !Occupied(b, wantedA)
  {
    var b := Target(tree, setB, hash, wantedB);
    forall name: string | name in wantedA ensures At(b, name) == At(tree, name) {
      TargetAt(tree, setB, hash, wantedB, name);
    }
  }

  // ---- the install itself ----

  predicate Manifest(report: Report) { report.schema == SCHEMA && Identifier(report.setId) && |report.entries| <= 500 }

  /** The names in done are as the target has them, the others still as they were. */
  ghost predicate Progress(was: Tree, now: Tree, target: Tree, done: set<string>) {
    forall name: string :: At(now, name) == At(if name in done then target else was, name)
  }

  lemma ProgressNext(was: Tree, now: Tree, target: Tree, done: set<string>, name: string, next: Tree)
    requires Progress(was, now, target, done)
    requires At(next, name) == At(target, name)
    requires forall other: string | other != name :: At(next, other) == At(now, other)
    ensures Progress(was, next, target, done + {name})
  {
  }

  lemma ProgressReplaced(was: Tree, now: Tree, target: Tree, done: set<string>, name: string, node: Node)
    requires Progress(was, now, target, done) && At(target, name) == Some(node)
    ensures Progress(was, now[name := node], target, done + {name})
  {
    ProgressNext(was, now, target, done, name, now[name := node]);
  }

  lemma ProgressIsBetween(was: Tree, now: Tree, target: Tree, done: set<string>)
    requires Progress(was, now, target, done)
    ensures Between(was, now, target)
  {
    forall name: string ensures At(now, name) == At(was, name) || At(now, name) == At(target, name) {
      assert At(now, name) == At(if name in done then target else was, name);
    }
  }

  /** No wanted name is a link or belongs to somebody else. */
  ghost predicate Admits(tree: Tree, receipts: map<string, Receipt>, wanted: map<string, Files>) {
    && (forall id | id in receipts :: id in tree && tree[id].Plugin?)
    && forall id | id in wanted && id in tree && id !in receipts :: tree[id].PlainFile?
  }

  function UpToDate(hash: Hash, receipts: map<string, Receipt>, wanted: map<string, Files>): set<string> {
    set id | id in wanted && id in receipts && receipts[id].hash == hash(wanted[id])
  }

  ghost predicate Leads(tree: Tree, target: Tree, setId: string, hash: Hash, receipts: map<string, Receipt>,
                        wanted: map<string, Files>) {
    forall id | id in wanted ::
      At(target, id)
      == if id in UpToDate(hash, receipts, wanted) then At(tree, id) else Some(Fresh(setId, hash, wanted[id]))
  }

  lemma LeadsToTarget(tree: Tree, setId: string, hash: Hash, wanted: map<string, Files>, receipts: map<string, Receipt>)
    requires receipts == map name | name in tree && Owns(tree, setId, name) :: tree[name].receipt.value
    requires !Refused(tree, setId, wanted)
    ensures Admits(tree, receipts, wanted)
            && Leads(tree, Target(tree, setId, hash, wanted), setId, hash, receipts, wanted)
    ensures receipts.Keys == Owned(tree, setId)
    ensures UpToDate(hash, receipts, wanted) == set id | id in wanted && Current(tree, setId, hash, wanted, id)
  {
    forall id | id in wanted
      ensures At(Target(tree, setId, hash, wanted), id)
           == if id in UpToDate(hash, receipts, wanted) then At(tree, id) else Some(Fresh(setId, hash, wanted[id]))
    {
      TargetAt(tree, setId, hash, wanted, id);
    }
  }

  lemma SurplusGone(was: Tree, mid: Tree, setId: string, hash: Hash, wanted: map<string, Files>,
                    receipts: map<string, Receipt>)
    requires receipts.Keys == Owned(was, setId)
    requires Progress(was, mid, Target(was, setId, hash, wanted), wanted.Keys)
    ensures mid - (receipts.Keys - wanted.Keys) == Target(was, setId, hash, wanted)
    ensures forall name: string | name in receipts.Keys - wanted.Keys ::
              At(Target(was, setId, hash, wanted), name) == None
  {
    var surplus := receipts.Keys - wanted.Keys;
    var target := Target(was, setId, hash, wanted);
    forall name: string
      ensures At(mid - surplus, name) == At(target, name) && (name in surplus ==> At(target, name) == None)
    {
      TargetAt(was, setId, hash, wanted, name);
      assert At(mid, name) == At(if name in wanted.Keys then target else was, name);
    }
    SameTree(mid - surplus, target);
  }

  lemma CountOne(done: set<string>, current: set<string>, id: string)
    requires id !in done
    ensures |(done + {id}) * current| == |done * current| + (if id in current then 1 else 0)
    ensures |(done + {id}) - current| == |done - current| + (if id in current then 0 else 1)
  {
    if id in current {
      assert (done + {id}) * current == done * current + {id} && (done + {id}) - current == done - current;
    } else {
      assert (done + {id}) * current == done * current && (done + {id}) - current == done - current + {id};
    }
  }

  /** The install loop: what is no longer pending is as the target has it, and was counted. */
  ghost predicate Underway(was: Tree, now: Tree, target: Tree, wanted: map<string, Files>, current: set<string>,
                           pending: set<string>, installed: nat, kept: nat) {
    var done := wanted.Keys - pending;
    && pending <= wanted.Keys && Progress(was, now, target, done)
    && kept == |done * current| && installed == |done - current|
    && (forall id | id in done :: id !in was || !was[id].PlainFile?)
    && forall id, next | id in done && next in pending :: TextLess(id, next)
  }

  lemma Standing(was: Tree, now: Tree, target: Tree, wanted: map<string, Files>, current: set<string>,
                 pending: set<string>, installed: nat, kept: nat, id: string)
    requires Underway(was, now, target, wanted, current, pending, installed, kept) && id in pending
    ensures At(now, id) == At(was, id) && Between(was, now, target)
  {
    ProgressIsBetween(was, now, target, wanted.Keys - pending);
  }

  lemma KeptOne(was: Tree, now: Tree, target: Tree, wanted: map<string, Files>, current: set<string>,
                pending: set<string>, installed: nat, kept: nat, id: string)
    requires Underway(was, now, target, wanted, current, pending, installed, kept) && Least(id, pending)
             && id in current
    requires At(target, id) == At(was, id) && (id !in was || !was[id].PlainFile?)
    ensures Underway(was, now, target, wanted, current, pending - {id}, installed, kept + 1)
  {
    var done := wanted.Keys - pending;
    CountOne(done, current, id);
    ProgressNext(was, now, target, done, id, now);
    assert wanted.Keys - (pending - {id}) == done + {id};
  }

  lemma InstalledOne(was: Tree, now: Tree, target: Tree, wanted: map<string, Files>, current: set<string>,
                     pending: set<string>, installed: nat, kept: nat, id: string, node: Node)
    requires Underway(was, now, target, wanted, current, pending, installed, kept) && Least(id, pending)
             && id !in current
    requires At(target, id) == Some(node)
    ensures Between(was, now[id := node], target)
    ensures id !in was || !was[id].PlainFile? ==>
              Underway(was, now[id := node], target, wanted, current, pending - {id}, installed + 1, kept)
  {
    var done := wanted.Keys - pending;
    CountOne(done, current, id);
    ProgressReplaced(was, now, target, done, id, node);
    ProgressIsBetween(was, now[id := node], target, done + {id});
    assert wanted.Keys - (pending - {id}) == done + {id};
  }

  lemma StoppedIsProgress(was: Tree, now: Tree, setId: string, hash: Hash, wanted: map<string, Files>, id: string)
    requires Progress(was, now, Target(was, setId, hash, wanted), Before(wanted, id))
    ensures now == Stopped(was, setId, hash, wanted, id)
  {
    var target, s := Target(was, setId, hash, wanted), Stopped(was, setId, hash, wanted, id);
    forall name: string ensures At(now, name) == At(s, name) {
      assert At(now, name) == At(if name in Before(wanted, id) then target else was, name);
      TargetAt(was, setId, hash, wanted, name);
      StoppedAt(was, setId, hash, wanted, id, name);
    }
    SameTree(now, s);
  }

  lemma OnlyLeast(ids: set<string>, a: string, b: string)
    requires Least(a, ids) && Least(b, ids)
    ensures a == b
  {
    TextTotal(a, b);
  }

  /** The install stands before the first name that a plain file takes, and what comes before that is installed. */
  ghost predicate StopsAt(was: Tree, now: Tree, target: Tree, wanted: map<string, Files>, id: string) {
    Least(id, Blocked(was, wanted)) && Progress(was, now, target, Before(wanted, id))
  }

  lemma StandsBefore(was: Tree, now: Tree, target: Tree, wanted: map<string, Files>, current: set<string>,
                     pending: set<string>, installed: nat, kept: nat, id: string)
    requires Underway(was, now, target, wanted, current, pending, installed, kept) && Least(id, pending)
             && Blocks(was, wanted, id)
    ensures StopsAt(was, now, target, wanted, id)
  {
    forall name | name in wanted ensures name in Before(wanted, id) <==> name in wanted.Keys - pending {
      TextTotal(name, id);
    }
    assert Before(wanted, id) == wanted.Keys - pending;
  }

  lemma AllInstalled(was: Tree, now: Tree, target: Tree, wanted: map<string, Files>, current: set<string>,
                     installed: nat, kept: nat)
    requires Underway(was, now, target, wanted, current, {}, installed, kept) && current <= wanted.Keys
    ensures Progress(was, now, target, wanted.Keys) && Between(was, now, target) && !Occupied(was, wanted)
    ensures kept == |current| && installed == |wanted.Keys - current|
  {
    assert wanted.Keys - {} == wanted.Keys && wanted.Keys * current == current;
    ProgressIsBetween(was, now, target, wanted.Keys);
  }

  class PluginRoot {
    var tree: Tree
    var locked: bool
    const isLink: bool

    constructor (tree: Tree, isLink: bool)
      ensures this.tree == tree && this.isLink == isLink && !locked
    {
      this.tree, this.isLink, this.locked := tree, isLink, false;
    }

    /** Stages, moves the old directory away, moves the new one in, and on failure puts the old one back. */
    method Replace(setId: string, hash: Hash, id: string, files: Files, owned: bool, disk: Disk)
      returns (ok: Result<(), Failure>)
      requires owned ==> id in tree
      modifies this`tree
      ensures !owned && id in old(tree) && id !in disk.stage ==> ok == Err(OccupiedPath) && tree == old(tree)
      ensures ok.Ok? ==> owned || id !in old(tree)
      ensures ok.Ok? ==> tree == old(tree)[id := Plugin(Some(Receipt(setId, hash(files))), files)]
      ensures ok.Err? ==>
                tree == old(tree) || tree == old(tree)[id := Plugin(Some(Receipt(setId, hash(files))), files)]
      ensures (owned || id !in old(tree)) && id !in disk.stage + disk.backup + disk.swap + disk.cleanup ==> ok.Ok?
    {
      if id in disk.stage {
        return Err(DiskFailed);
      }
      ghost var was := tree;
      var backup := At(tree, id);
      if owned {
        if id in disk.backup {
          return Err(DiskFailed);
        }
        tree := tree - {id};
      } else if id in tree {
        return Err(OccupiedPath);
      }
      if id in disk.swap {
        if owned {
          tree := tree[id := backup.value];
          assert tree == was;
        }
        return Err(DiskFailed);
      }
      tree := tree[id := Fresh(setId, hash, files)];
      assert tree == was[id := Fresh(setId, hash, files)];
      if id in disk.cleanup {
        return Err(DiskFailed);
      }
      return Ok(());
    }

    static method Next(pending: set<string>) returns (id: string)
      requires pending != {}
      ensures Least(id, pending)
    {
      ghost var least := LeastExists(pending);
      id :| Least(id, pending);
    }

    /** Brings every wanted name to what the target has for it, in the order of the names. */
    method InstallWanted(setId: string, hash: Hash, wanted: map<string, Files>, receipts: map<string, Receipt>,
                         disk: Disk, ghost target: Tree)
      returns (ok: Result<(), Failure>, installed: nat, kept: nat, ghost last: string)
      requires Admits(tree, receipts, wanted) && Leads(tree, target, setId, hash, receipts, wanted)
      modifies this`tree
      ensures Between(old(tree), tree, target)
      ensures Occupied(old(tree), wanted) ==> ok.Err?
      ensures ok.Ok? ==> Progress(old(tree), tree, target, wanted.Keys)
      ensures ok.Ok? ==> var current := UpToDate(hash, receipts, wanted);
              kept == |current| && installed == |wanted.Keys - current|
      ensures !Occupied(old(tree), wanted) && disk == NO_FAULTS ==> ok.Ok?
      ensures disk == NO_FAULTS && ok.Err? ==> ok == Err(OccupiedPath) && StopsAt(old(tree), tree, target, wanted, last)
    {
      installed, kept, last := 0, 0, "";
      ghost var was, current := tree, UpToDate(hash, receipts, wanted);
      var pending := wanted.Keys;
      assert wanted.Keys - pending == {};
      while pending != {}
        invariant Underway(was, tree, target, wanted, current, pending, installed, kept)
      {
        var id := Next(pending);
        Standing(was, tree, target, wanted, current, pending, installed, kept, id);
        if id in receipts && receipts[id].hash == hash(wanted[id]) {
          KeptOne(was, tree, target, wanted, current, pending, installed, kept, id);
          kept := kept + 1;
        } else {
          ghost var before := tree;
          InstalledOne(was, tree, target, wanted, current, pending, installed, kept, id,
                       Fresh(setId, hash, wanted[id]));
          ok := Replace(setId, hash, id, wanted[id], id in receipts, disk);
          if ok.Err? {
            last := id;
            if disk == NO_FAULTS {
              StandsBefore(was, before, target, wanted, current, pending, installed, kept, id);
            }
            return;
          }
          installed := installed + 1;
        }
        pending := pending - {id};
      }
      AllInstalled(was, tree, target, wanted, current, installed, kept);
      return Ok(()), installed, kept, "";
    }

    /** Removes the directories of the set that nothing wants any more. */
    method RemoveSurplus(surplus: set<string>, disk: Disk) returns (ok: Result<(), Failure>, removed: nat)
      modifies this`tree
      ensures forall name: string ::
                At(tree, name) == At(old(tree), name) || (name in surplus && At(tree, name) == None)
      ensures ok.Ok? ==> tree == old(tree) - surplus && removed == |surplus|
      ensures disk.remove == {} ==> ok.Ok?
    {
      removed := 0;
      ghost var was := tree;
      var left := surplus;
      while left != {}
        invariant left <= surplus && tree == was - (surplus - left)
        invariant removed == |surplus| - |left|
      {
        var id :| id in left;
        if id in disk.remove {
          return Err(DiskFailed), removed;
        }
        tree := tree - {id};
        removed := removed + 1;
        left := left - {id};
        assert tree == was - (surplus - left);
      }
      return Ok(()), removed;
    }

    method Converge(setId: string, hash: Hash, wanted: map<string, Files>, disk: Disk)
      returns (r: Result<SyncResult, Failure>)
      requires (forall id | id in wanted :: IsRelay(id)) && !Refused(tree, setId, wanted)
      modifies this`tree
      ensures Between(old(tree), tree, Target(old(tree), setId, hash, wanted))
      ensures Occupied(old(tree), wanted) ==> r.Err?
      ensures r.Ok? ==> Completed(old(tree), tree, setId, hash, wanted, r.value)
      ensures !Occupied(old(tree), wanted) && disk == NO_FAULTS ==> r.Ok?
      ensures disk == NO_FAULTS ==> forall id | Least(id, Blocked(old(tree), wanted)) ::
                r == Err(OccupiedPath) && tree == Stopped(old(tree), setId, hash, wanted, id)
    {
      var receipts := map name | name in tree && Owns(tree, setId, name) :: tree[name].receipt.value;
      ghost var was, target := tree, Target(tree, setId, hash, wanted);
      LeadsToTarget(was, setId, hash, wanted, receipts);
      var ok, installed, kept, last := InstallWanted(setId, hash, wanted, receipts, disk, target);
      if disk == NO_FAULTS {
        forall id | Least(id, Blocked(was, wanted)) ensures tree == Stopped(was, setId, hash, wanted, id) {
          assert Occupied(was, wanted);
          OnlyLeast(Blocked(was, wanted), id, last);
          StoppedIsProgress(was, tree, setId, hash, wanted, id);
        }
      }
      if ok.Err? {
        return Err(ok.error);
      }
      ghost var mid := tree;
      var removed;
      ok, removed := RemoveSurplus(receipts.Keys - wanted.Keys, disk);
      SurplusGone(was, mid, setId, hash, wanted, receipts);
      if ok.Err? {
        return Err(ok.error);
      }
      return Ok(SyncResult(installed, removed, kept));
    }

    method Install(report: Report, hash: Hash, disk: Disk) returns (r: Result<SyncResult, Failure>)
      modifies this
      ensures locked == old(locked)
      ensures var p := Prepared(report.entries);
              if !Manifest(report) || isLink || old(locked) || p.Err? || Refused(old(tree), report.setId, p.value) then
                r.Err? && tree == old(tree)
              else
                && Between(old(tree), tree, Target(old(tree), report.setId, hash, p.value))
                && (AllHonest(hash, old(tree)) ==> AllHonest(hash, tree))
                && (Occupied(old(tree), p.value) ==> r.Err?)
                && (r.Ok? ==> Completed(old(tree), tree, report.setId, hash, p.value, r.value))
                && (!Occupied(old(tree), p.value) && disk == NO_FAULTS ==> r.Ok?)
                && (disk == NO_FAULTS ==> forall id | Least(id, Blocked(old(tree), p.value)) ::
                      r == Err(OccupiedPath) && tree == Stopped(old(tree), report.setId, hash, p.value, id))
    {
      if !Manifest(report) {
        return Err(BadManifest);
      }
      if isLink {
        return Err(RootIsLink);
      }
      if locked {
        return Err(Locked);
      }
      locked := true;
      var prepared := Prepared(report.entries);
      if prepared.Err? {
        locked := false;
        return Err(prepared.error);
      }
      if Refused(tree, report.setId, prepared.value) {
        locked := false;
        return Err(ForeignPlugin);
      }
      PreparedHolds(report.entries);
      ghost var was := tree;
      r := Converge(report.setId, hash, prepared.value, disk);
      locked := false;
      if AllHonest(hash, was) { HonestyIsKept(was, tree, report.setId, hash, prepared.value); }
    }
  }

  /** The whole new tree, and what was counted on the way to it. */
  ghost predicate Completed(was: Tree, now: Tree, setId: string, hash: Hash, wanted: map<string, Files>,
                            counts: SyncResult) {
    var current := set id | id in wanted && Current(was, setId, hash, wanted, id);
    && now == Target(was, setId, hash, wanted)
    && counts == SyncResult(|wanted.Keys - current|, |Owned(was, setId) - wanted.Keys|, |current|)
  }
}
