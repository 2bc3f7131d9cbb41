/** The three-source reconciliation of a restore (scripts/ai4c_restore.py:317-375):
    database rows, evidence events and media files must tell the same story. */
module Reconcile {

  datatype FactKey = FactKey(
    owner: string, session: string, conversation: string, evidence: string, artifact: string)

  datatype DatabaseFact = DatabaseFact(
    key: FactKey, objectKey: string, mediaType: string, sha256: string, size: int)

  datatype EventFact = EventFact(key: FactKey, mediaType: string, sha256: string, size: int)

  datatype Node = File(size: nat, sha256: string) | Directory | Symlink | Special

  /** A media root: every path below it, relative and normalized. */
  type Tree = map<string, Node>

  function ObjectName(row: DatabaseFact): string {
    "referenced/" + row.objectKey
  }

  /** What a row says once its storage location is forgotten. */
  function AsEvent(row: DatabaseFact): EventFact {
    EventFact(row.key, row.mediaType, row.sha256, row.size)
  }

  /** Some component of the path is `..`. */
  predicate HasParentPart(path: string) {
    exists i :: 0 <= i < |path| && ParentPartAt(path, i)
  }

  predicate ParentPartAt(path: string, i: nat) {
    && i + 2 <= |path| && path[i] == '.' && path[i + 1] == '.'
    && (i == 0 || path[i - 1] == '/')
    && (i + 2 == |path| || path[i + 2] == '/')
  }

  predicate Acceptable(row: DatabaseFact) {
    !HasParentPart(ObjectName(row)) && |row.sha256| == 64
  }

  /** A path, split at its slashes. */
  function Components(path: string): (parts: seq<string>)
    ensures parts != []
  {
    if path == [] then [[]]
    else
      var rest := Components(path[1..]);
      if path[0] == '/' then [[]] + rest else [[path[0]] + rest[0]] + rest[1..]
  }

  function FirstSlash(path: string): (n: nat)
    ensures n <= |path| && (forall i :: 0 <= i < n ==> path[i] != '/') && (n < |path| ==> path[n] == '/')
  {
    if path == [] || path[0] == '/' then 0 else FirstSlash(path[1..]) + 1
  }

  lemma {:induction false} ComponentsSplit(path: string)
    ensures var n := FirstSlash(path);
            Components(path) == [path[..n]] + (if n == |path| then [] else Components(path[n + 1..]))
  {
    if path != [] && path[0] != '/' {
      ComponentsSplit(path[1..]);
      var n := FirstSlash(path[1..]);
      assert path[..n + 1] == [path[0]] + path[1..][..n];
      assert n < |path[1..]| ==> path[1..][n + 1..] == path[n + 2..];
    }
  }

  lemma ParentPartIsFrontOrBehind(path: string, i: nat)
    requires ParentPartAt(path, i)
    ensures var n := FirstSlash(path);
            if i == 0 then path[..n] == ".." else n < i && ParentPartAt(path[n + 1..], i - n - 1)
  {
    if i == 0 {
      FirstSlashAt(path, 2);
      assert path[..2] == "..";
    } else {
      FirstSlashAt(path, i - 1);
    }
  }

  /** The first slash is no later than any slash, and nothing before it is one. */
  lemma FirstSlashAt(path: string, n: nat)
    requires n == |path| || (n < |path| && path[n] == '/')
    ensures FirstSlash(path) <= n
    ensures (forall i :: 0 <= i < n ==> path[i] != '/') ==> FirstSlash(path) == n
  {
    hide FirstSlash;
  }

  /** A parent part is at the front, or behind the first slash. */
  lemma ParentPartSplits(path: string)
    ensures var n := FirstSlash(path);
            HasParentPart(path) <==> path[..n] == ".." || (n < |path| && HasParentPart(path[n + 1..]))
  {
    var n := FirstSlash(path);
    hide FirstSlash, ParentPartAt;
    if HasParentPart(path) {
      var i: nat :| i < |path| && ParentPartAt(path, i);
      ParentPartIsFrontOrBehind(path, i);
    }
    if path[..n] == ".." {
      ParentPartInFront(path);
    }
    if n < |path| && HasParentPart(path[n + 1..]) {
      var j: nat :| j < |path[n + 1..]| && ParentPartAt(path[n + 1..], j);
      ParentPartBehind(path, j);
    }
  }

  lemma ParentPartInFront(path: string)
    requires path[..FirstSlash(path)] == ".."
    ensures ParentPartAt(path, 0)
  {
    var n := FirstSlash(path);
    assert path[0] == path[..n][0] && path[1] == path[..n][1];
    hide FirstSlash;
  }

  lemma ParentPartBehind(path: string, j: nat)
    requires var n := FirstSlash(path); n < |path| && ParentPartAt(path[n + 1..], j)
    ensures ParentPartAt(path, FirstSlash(path) + 1 + j)
  {
    hide FirstSlash;
  }

  lemma {:induction false} HasParentPartExactly(path: string)
    ensures HasParentPart(path) <==> ".." in Components(path)
    decreases |path|
  {
    var n := FirstSlash(path);
    ParentPartSplits(path);
    ComponentsSplit(path);
    hide HasParentPart, Components;
    if n < |path| {
      HasParentPartExactly(path[n + 1..]);
    }
  }

  /** A row is acceptable exactly when no component of its object key is `..` and its digest has the
      length of one; the directory that objects are kept in adds no such component. */
  lemma AcceptableExactly(row: DatabaseFact)
    ensures Acceptable(row) <==> ".." !in Components(row.objectKey) && |row.sha256| == 64
  {
    var path := ObjectName(row);
    ReferencedComes(row.objectKey);
    HasParentPartExactly(path);
  }

  lemma ReferencedComes(key: string)
    ensures Components("referenced/" + key) == ["referenced"] + Components(key)
  {
    var path := "referenced/" + key;
    var front := "referenced";
    assert path[..10] == front && path[10] == '/' && path[11..] == key;
    FirstSlashAt(path, 10);
    assert forall i :: 0 <= i < 10 ==> path[i] == path[..10][i] && front[i] != '/';
    ComponentsSplit(path);
  }

  ghost predicate RowsDistinct(rows: seq<DatabaseFact>) {
    forall i, j :: 0 <= i < j < |rows| ==>
      rows[i].key != rows[j].key && ObjectName(rows[i]) != ObjectName(rows[j])
  }

  ghost predicate EventsDistinct(events: seq<EventFact>) {
    forall i, j :: 0 <= i < j < |events| ==> events[i].key != events[j].key
  }

  /** Each row has an event that agrees with it, and each event such a row. */
  ghost predicate SameFacts(rows: seq<DatabaseFact>, events: seq<EventFact>) {
    && (forall row <- rows :: AsEvent(row) in events)
    && (forall event <- events :: exists row <- rows :: AsEvent(row) == event)
  }

  /** The files are the named objects, each with the recorded size and digest. */
  ghost predicate FilesAreTheObjects(rows: seq<DatabaseFact>, tree: Tree) {
    && (forall p <- tree :: tree[p].File? || tree[p].Directory?)
    && (forall p <- tree :: tree[p].File? ==> exists row <- rows :: ObjectName(row) == p)
    && (forall row <- rows :: ObjectName(row) in tree && IsStored(row, tree[ObjectName(row)]))
  }

  predicate IsStored(row: DatabaseFact, node: Node) {
    node.File? && node.size == row.size && node.sha256 == row.sha256
  }

  ghost predicate Reconciles(rows: seq<DatabaseFact>, events: seq<EventFact>, tree: Tree) {
    && (forall row <- rows :: Acceptable(row))
    && RowsDistinct(rows) && EventsDistinct(events)
    && SameFacts(rows, events)
    && FilesAreTheObjects(rows, tree)
  }

  // ---------------------------------------------------------------------
  // The loops

  /** The first loop: `database` and `object_keys`. */
  method IndexRows(rows: seq<DatabaseFact>)
    returns (ok: bool, database: map<FactKey, DatabaseFact>, objectNames: set<string>)
    ensures ok <==> (forall row <- rows :: Acceptable(row)) && RowsDistinct(rows)
    ensures ok ==> forall k <- database :: database[k] in rows && database[k].key == k
    ensures ok ==> forall row <- rows :: row.key in database && database[row.key] == row
    ensures ok ==> objectNames == set row <- rows :: ObjectName(row)
  {
    database, objectNames := map[], {};
    for n := 0 to |rows|
      invariant forall row <- rows[..n] :: Acceptable(row)
      invariant RowsDistinct(rows[..n])
      invariant forall k <- database :: database[k] in rows[..n] && database[k].key == k
      invariant forall row <- rows[..n] :: row.key in database && database[row.key] == row
      invariant objectNames == set row <- rows[..n] :: ObjectName(row)
    {
      var row := rows[n];
      assert rows[..n + 1] == rows[..n] + [row];
      if !Acceptable(row) {
        return false, database, objectNames;
      }
      if row.key in database || ObjectName(row) in objectNames {
        ghost var clash := if row.key in database then database[row.key]
                           else var other :| other in rows[..n] && ObjectName(other) == ObjectName(row); other;
        ghost var i: nat :| i < n && rows[i] == clash;
        assert !RowsDistinct(rows);
        return false, database, objectNames;
      }
      database, objectNames := database[row.key := row], objectNames + {ObjectName(row)};
    }
    assert rows[..|rows|] == rows;
    ok := true;
  }

  /** The second loop: `events`. */
  method IndexEvents(events: seq<EventFact>) returns (ok: bool, index: map<FactKey, EventFact>)
    ensures ok <==> EventsDistinct(events)
    ensures ok ==> forall k <- index :: index[k] in events && index[k].key == k
    ensures ok ==> forall event <- events :: event.key in index && index[event.key] == event
  {
    index := map[];
    for n := 0 to |events|
      invariant EventsDistinct(events[..n])
      invariant forall k <- index :: index[k] in events[..n] && index[k].key == k
      invariant forall event <- events[..n] :: event.key in index && index[event.key] == event
    {
      var event := events[n];
      assert events[..n + 1] == events[..n] + [event];
      if event.key in index {
        ghost var i: nat :| i < n && events[i] == index[event.key];
        assert !EventsDistinct(events);
        return false, index;
      }
      index := index[event.key := event];
    }
    assert events[..|events|] == events;
    ok := true;
  }

  /** The third loop: media facts of paired rows and events. */
  method FactsAgree(database: map<FactKey, DatabaseFact>, index: map<FactKey, EventFact>)
    returns (ok: bool)
    requires database.Keys == index.Keys
    ensures ok <==> forall k <- database ::
              database[k].mediaType == index[k].mediaType
              && database[k].size == index[k].size && database[k].sha256 == index[k].sha256
  {
    var left := database.Keys;
    while left != {}
      invariant left <= database.Keys
      invariant forall k <- database.Keys - left ::
        database[k].mediaType == index[k].mediaType
        && database[k].size == index[k].size && database[k].sha256 == index[k].sha256
      decreases |left|
    {
      var k :| k in left;
      if database[k].mediaType != index[k].mediaType || database[k].size != index[k].size
         || database[k].sha256 != index[k].sha256 {
        return false;
      }
      left := left - {k};
    }
    ok := true;
  }

  /** The fourth loop: the names of the regular files, unless some entry is unsafe. */
  method ListFiles(tree: Tree) returns (ok: bool, files: set<string>)
    ensures ok <==> forall p <- tree :: tree[p].File? || tree[p].Directory?
    ensures ok ==> files == set p <- tree | tree[p].File?
  {
    files := {};
    var left := tree.Keys;
    while left != {}
      invariant left <= tree.Keys
      invariant forall p <- tree.Keys - left :: tree[p].File? || tree[p].Directory?
      invariant files == set p <- tree.Keys - left | tree[p].File?
      decreases |left|
    {
      var p :| p in left;
      if tree[p].Symlink? {
        return false, files;
      }
      if tree[p].File? {
        files := files + {p};
      } else if !tree[p].Directory? {
        return false, files;
      }
      left := left - {p};
    }
    ok := true;
  }

  lemma MissingObject(rows: seq<DatabaseFact>, tree: Tree, files: set<string>, objectNames: set<string>)
    requires files == set p <- tree | tree[p].File?
    requires objectNames == set row <- rows :: ObjectName(row)
    requires objectNames - files != {}
    ensures !FilesAreTheObjects(rows, tree)
  {
    var row :| row in rows && ObjectName(row) !in files;
  }

  /** With the names agreeing, size and hash decide. */
  lemma StoredExactly(rows: seq<DatabaseFact>, tree: Tree, database: map<FactKey, DatabaseFact>, files: set<string>)
    requires forall p <- tree :: tree[p].File? || tree[p].Directory?
    requires files == (set p <- tree | tree[p].File?) && files == set row <- rows :: ObjectName(row)
    requires forall k <- database :: database[k] in rows && database[k].key == k
    requires forall row <- rows :: row.key in database && database[row.key] == row
    ensures forall k <- database :: ObjectName(database[k]) in tree
    ensures FilesAreTheObjects(rows, tree)
            <==> forall k <- database :: IsStored(database[k], tree[ObjectName(database[k])])
  {
    forall p | p in tree && tree[p].File? ensures exists row <- rows :: ObjectName(row) == p {
      assert p in files;
    }
    forall row | row in rows ensures ObjectName(row) in tree && tree[ObjectName(row)].File? {
      assert ObjectName(row) in files;
    }
  }

  /** The last loop: size and digest of every named object. */
  method ObjectsStored(database: map<FactKey, DatabaseFact>, tree: Tree) returns (ok: bool)
    requires forall k <- database :: ObjectName(database[k]) in tree
    requires forall k <- database :: tree[ObjectName(database[k])].File?
    ensures ok <==> forall k <- database :: IsStored(database[k], tree[ObjectName(database[k])])
  {
    var left := database.Keys;
    while left != {}
      invariant left <= database.Keys
      invariant forall k <- database.Keys - left :: IsStored(database[k], tree[ObjectName(database[k])])
      decreases |left|
    {
      var k :| k in left;
      var node := tree[ObjectName(database[k])];
      if node.size != database[k].size {
        return false;
      }
      if node.sha256 != database[k].sha256 {
        return false;
      }
      left := left - {k};
    }
    ok := true;
  }

  /** `_reconcile_structured_facts`: accepts exactly when the three sources agree. */
  method ReconcileStructuredFacts(rows: seq<DatabaseFact>, events: seq<EventFact>, tree: Tree)
    returns (ok: bool)
    ensures ok <==> Reconciles(rows, events, tree)
  {
    hide SameFacts, EventsDistinct, RowsDistinct, HasParentPart;
    var rowsOk, database, objectNames := IndexRows(rows);
    if !rowsOk {
      return false;
    }
    var eventsOk, index := IndexEvents(events);
    if !eventsOk {
      return false;
    }
    if database.Keys != index.Keys {
      KeysDifferOnlyWhenFactsDo(rows, events, database, index);
      return false;
    }
    var agree := FactsAgree(database, index);
    PairedFacts(rows, events, database, index);
    if !agree {
      return false;
    }
    var safe, files := ListFiles(tree);
    if !safe {
      return false;
    }
    if files - objectNames != {} {
      ExtraObject(rows, tree, files, objectNames);
      return false;
    }
    if objectNames - files != {} {
      MissingObject(rows, tree, files, objectNames);
      return false;
    }
    assert files == objectNames;
    assert forall row <- rows :: ObjectName(row) in files;
    ok := ObjectsStored(database, tree);
    StoredExactly(rows, tree, database, files);
    hide FilesAreTheObjects;
  }

  lemma ExtraObject(rows: seq<DatabaseFact>, tree: Tree, files: set<string>, objectNames: set<string>)
    requires files == set p <- tree | tree[p].File?
    requires objectNames == set row <- rows :: ObjectName(row)
    requires files - objectNames != {}
    ensures !FilesAreTheObjects(rows, tree)
  {
    var p :| p in files - objectNames;
    assert p in tree && tree[p].File?;
  }

  lemma KeysDifferOnlyWhenFactsDo(
    rows: seq<DatabaseFact>, events: seq<EventFact>,
    database: map<FactKey, DatabaseFact>, index: map<FactKey, EventFact>)
    requires forall k <- database :: database[k] in rows && database[k].key == k
    requires forall row <- rows :: row.key in database && database[row.key] == row
    requires forall k <- index :: index[k] in events && index[k].key == k
    requires forall event <- events :: event.key in index && index[event.key] == event
    ensures SameFacts(rows, events) ==> database.Keys == index.Keys
  {
    if SameFacts(rows, events) {
      forall k | k in database ensures k in index {
        assert AsEvent(database[k]) in events;
      }
      forall k | k in index ensures k in database {
        var row :| row in rows && AsEvent(row) == index[k];
        assert row.key in database;
      }
    }
  }

  lemma PairedFacts(
    rows: seq<DatabaseFact>, events: seq<EventFact>,
    database: map<FactKey, DatabaseFact>, index: map<FactKey, EventFact>)
    requires forall k <- database :: database[k] in rows && database[k].key == k
    requires forall row <- rows :: row.key in database && database[row.key] == row
    requires forall k <- index :: index[k] in events && index[k].key == k
    requires forall event <- events :: event.key in index && index[event.key] == event
    requires database.Keys == index.Keys
    ensures (forall k <- database ::
              database[k].mediaType == index[k].mediaType
              && database[k].size == index[k].size && database[k].sha256 == index[k].sha256)
            <==> SameFacts(rows, events)
  {
    if forall k <- database ::
         database[k].mediaType == index[k].mediaType
         && database[k].size == index[k].size && database[k].sha256 == index[k].sha256 {
      forall row | row in rows ensures AsEvent(row) in events {
        assert AsEvent(row) == index[row.key];
      }
      forall event | event in events ensures exists row <- rows :: AsEvent(row) == event {
        assert AsEvent(database[event.key]) == event;
      }
    }
    if SameFacts(rows, events) {
      forall k | k in database ensures AsEvent(database[k]) == index[k] {
        var event := AsEvent(database[k]);
        assert event in events && index[event.key] == event;
      }
    }
  }

  // ---------------------------------------------------------------------
  // What acceptance means

  function AsEvents(rows: seq<DatabaseFact>): (events: seq<EventFact>)
    ensures |events| == |rows| && forall i :: 0 <= i < |rows| ==> events[i] == AsEvent(rows[i])
  {
    seq(|rows|, i requires 0 <= i < |rows| => AsEvent(rows[i]))
  }

  /** The files of a tree as one value. */
  ghost function Files(tree: Tree): map<string, (int, string)> {
    map p | p in tree && tree[p].File? :: (tree[p].size, tree[p].sha256)
  }

  lemma {:induction false} DistinctOccursOnce<T>(s: seq<T>, x: T)
    requires forall i, j :: 0 <= i < j < |s| ==> s[i] != s[j]
    ensures multiset(s)[x] == if x in s then 1 else 0
  {
    if s != [] {
      assert s == s[..|s| - 1] + [s[|s| - 1]];
      DistinctOccursOnce(s[..|s| - 1], x);
    }
  }

  lemma SameFactsSameCount(rows: seq<DatabaseFact>, events: seq<EventFact>, event: EventFact)
    requires RowsDistinct(rows) && EventsDistinct(events) && SameFacts(rows, events)
    ensures multiset(AsEvents(rows))[event] == multiset(events)[event]
  {
    DistinctOccursOnce(AsEvents(rows), event);
    DistinctOccursOnce(events, event);
    if event in events {
      var row :| row in rows && AsEvent(row) == event;
      var i: nat :| i < |rows| && rows[i] == row;
      assert AsEvents(rows)[i] == event;
    }
  }

  /** Accepted sources carry the same facts, each as often as the other side does. */
  lemma AcceptedFactsCorrespond(rows: seq<DatabaseFact>, events: seq<EventFact>, tree: Tree)
    requires Reconciles(rows, events, tree)
    ensures multiset(AsEvents(rows)) == multiset(events)
    ensures |rows| == |events|
  {
    forall event: EventFact ensures multiset(AsEvents(rows))[event] == multiset(events)[event] {
      SameFactsSameCount(rows, events, event);
    }
    hide Reconciles;
    assert multiset(AsEvents(rows)) == multiset(events);
    assert |multiset(AsEvents(rows))| == |AsEvents(rows)| && |multiset(events)| == |events|;
  }

  /** Of accepted sources the files are one per row, with the size and digest of the row. */
  lemma AcceptedFilesCorrespond(rows: seq<DatabaseFact>, events: seq<EventFact>, tree: Tree)
    requires Reconciles(rows, events, tree)
    ensures forall row, row' :: row in rows && row' in rows && ObjectName(row) == ObjectName(row') ==> row == row'
    ensures Files(tree).Keys == set row <- rows :: ObjectName(row)
    ensures forall row <- rows :: Files(tree)[ObjectName(row)] == (row.size, row.sha256)
  {
    forall row, row' | row in rows && row' in rows && ObjectName(row) == ObjectName(row') ensures row == row' {
      var i: nat :| i < |rows| && rows[i] == row;
      var j: nat :| j < |rows| && rows[j] == row';
    }
    assert FilesAreTheObjects(rows, tree);
    forall p | p in Files(tree) ensures exists row <- rows :: ObjectName(row) == p {
    }
  }

  lemma {:induction false} DistinctUnderReordering<T, K>(s: seq<T>, t: seq<T>, key: T -> K)
    requires multiset(s) == multiset(t)
    requires forall i, j :: 0 <= i < j < |s| ==> key(s[i]) != key(s[j])
    ensures forall i, j :: 0 <= i < j < |t| ==> key(t[i]) != key(t[j])
  {
    forall i, j | 0 <= i < j < |t| ensures key(t[i]) != key(t[j]) {
      if t[i] == t[j] {
        DistinctOccursOnce(s, t[i]);
        TwiceCounts(t, i, j);
      } else {
        assert t[i] in multiset(s) && t[j] in multiset(s);
        var p: nat :| p < |s| && s[p] == t[i];
        var q: nat :| q < |s| && s[q] == t[j];
      }
    }
  }

  lemma TwiceCounts<T>(t: seq<T>, i: nat, j: nat)
    requires i < j < |t| && t[i] == t[j]
    ensures multiset(t)[t[i]] >= 2
  {
    assert t == t[..i] + [t[i]] + t[i + 1..j] + [t[j]] + t[j + 1..];
  }

  /** The verdict does not depend on the order in which either source lists its facts. */
  lemma OrderDoesNotMatter(
    rows: seq<DatabaseFact>, rows': seq<DatabaseFact>,
    events: seq<EventFact>, events': seq<EventFact>, tree: Tree)
    requires multiset(rows) == multiset(rows') && multiset(events) == multiset(events')
    ensures Reconciles(rows, events, tree) <==> Reconciles(rows', events', tree)
  {
    if Reconciles(rows, events, tree) {
      ReorderingAccepted(rows, rows', events, events', tree);
    }
    if Reconciles(rows', events', tree) {
      ReorderingAccepted(rows', rows, events', events, tree);
    }
  }

  lemma ReorderingAccepted(
    rows: seq<DatabaseFact>, rows': seq<DatabaseFact>,
    events: seq<EventFact>, events': seq<EventFact>, tree: Tree)
    requires multiset(rows) == multiset(rows') && multiset(events) == multiset(events')
    requires Reconciles(rows, events, tree)
    ensures Reconciles(rows', events', tree)
  {
    assert forall row :: row in rows' <==> row in multiset(rows);
    assert forall event :: event in events' <==> event in multiset(events);
    forall event | event in events' ensures exists row <- rows' :: AsEvent(row) == event {
      assert event in multiset(events') && event in events;
      var row :| row in rows && AsEvent(row) == event;
      assert row in rows';
    }
    forall p | p in tree && tree[p].File? ensures exists row <- rows' :: ObjectName(row) == p {
      var row :| row in rows && ObjectName(row) == p;
      assert row in rows';
    }
    DistinctUnderReordering(rows, rows', (row: DatabaseFact) => row.key);
    DistinctUnderReordering(rows, rows', ObjectName);
    DistinctUnderReordering(events, events', (event: EventFact) => event.key);
  }
}
