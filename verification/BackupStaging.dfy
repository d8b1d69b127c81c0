/**
 Publishing a backup and staging it for a restore. What SQLite finds in a
 database file, the file hash and the size of the encoded manifest are
 parameters; file contents are byte sequences.
 */
module BackupStaging {

  type Bytes = seq<bv8>
  type Key = string

  datatype Result<+T> = Ok(value: T) | Err

  datatype Option<+T> = None | Some(value: T)

  /** A blob the database refers to; an empty hash means none is recorded. */
  datatype Reference = Reference(key: Key, sha: string, size: nat)

  datatype Entry = Entry(key: Key, sha: string, size: nat)

  datatype Manifest = Manifest(version: string, databaseFile: string, databaseSha: string, migrations: seq<string>,
                               blobs: seq<Entry>)

  /** A published backup directory: its manifest, the files beside it and
      those in its blob directory. */
  datatype Backup = Backup(manifest: Manifest, top: map<string, Bytes>, files: map<Key, Bytes>) {
    predicate Readable() { manifest.databaseFile in top }
    function Database(): Bytes
      requires Readable()
    {
      top[manifest.databaseFile]
    }
  }

  datatype Staged = Staged(database: Bytes, files: map<Key, Bytes>)

  /** What SQLite finds in a database file: whether its quick check passes, its
      tables, the blob rows of the three tables that hold some, the recorded
      migrations, and whether a foreign key points nowhere. */
  datatype Database = Database(intact: bool, tables: set<string>, rows: seq<Reference>, migrations: seq<string>, orphans: bool)

  datatype Listing = Listing(references: seq<Reference>, migrations: seq<string>)

  /** read is None for a file that is no database. */
  datatype Host = Host(
    sha: Bytes -> string,
    read: Bytes -> Option<Database>,
    encodedSize: Manifest -> nat,
    maxManifest: nat)
  {
    /** Listing the blobs a database refers to queries these tables. */
    function List(db: Bytes): Result<Listing> {
      var d := read(db);
      if d.Some? && LISTED <= d.value.tables then Ok(Listing(d.value.rows, d.value.migrations)) else Err
    }

    /** A database that a restore may put in place. */
    predicate Validates(db: Bytes) {
      var d := read(db);
      d.Some? && d.value.intact && REQUIRED <= d.value.tables && !d.value.orphans
    }
  }

  const LISTED: set<string> := {"attachment_envelopes", "backup_blobs", "schema_migrations"}
  const REQUIRED: set<string> := {"schema_migrations", "instances", "accounts", "message_envelopes"}

  /** A hash prints as 64 characters. */
  ghost predicate Hashes(h: Host) { forall b :: |h.sha(b)| == 64 }

  const FORMAT := "v1"

  /** What filepath.Base returns unchanged, minus the two dot names. */
  predicate ValidKey(k: Key) {
    k == "/" || (k != "" && '/' !in k && k != "." && k != "..")
  }

  function LowerChar(c: char): char {
    if 'A' <= c <= 'Z' then (c as int - 'A' as int + 'a' as int) as char else c
  }

  function Lower(s: string): string { seq(|s|, i requires 0 <= i < |s| => LowerChar(s[i])) }

  /** Versions joined by a zero character, as they are compared. */
  function Joined(versions: seq<string>): string {
    if versions == [] then ""
    else if |versions| == 1 then versions[0]
    else Joined(versions[..|versions| - 1]) + ['\0'] + versions[|versions| - 1]
  }

  predicate EqualFold(a: string, b: string) { Lower(a) == Lower(b) }

  /** A blob's content is the one a reference describes. */
  predicate Describes(h: Host, r: Reference, size: nat, sha: string) {
    size == r.size && (r.sha == "" || EqualFold(sha, r.sha))
  }

  // Publishing

  predicate Publishable(h: Host, store: map<Key, Bytes>, r: Reference) {
    ValidKey(r.key) && r.key in store && Describes(h, r, |store[r.key]|, h.sha(store[r.key]))
  }

  function EntryFor(h: Host, store: map<Key, Bytes>, r: Reference): Entry
    requires r.key in store
  {
    Entry(r.key, h.sha(store[r.key]), |store[r.key]|)
  }

  function KeysOf(refs: seq<Reference>): set<Key> { set i | 0 <= i < |refs| :: refs[i].key }

  /** b is the backup of database db with blob store. */
  ghost predicate BackupOf(h: Host, db: Bytes, store: map<Key, Bytes>, b: Backup) {
    && h.List(db).Ok?
    && var refs := h.List(db).value.references;
    && (forall i :: 0 <= i < |refs| ==> Publishable(h, store, refs[i]))
    && b.top == map["database.db" := db]
    && b.manifest.version == FORMAT && b.manifest.databaseFile == "database.db"
    && b.manifest.databaseSha == h.sha(db) && b.manifest.migrations == h.List(db).value.migrations
    && |b.manifest.blobs| == |refs|
    && (forall i :: 0 <= i < |refs| ==> b.manifest.blobs[i] == EntryFor(h, store, refs[i]))
    && b.files == (map k | k in KeysOf(refs) :: store[k])
    && h.encodedSize(b.manifest) + 1 <= h.maxManifest
  }

  /** Copies the database and every blob it refers to, checking each copy. */
  method Publish(h: Host, db: Bytes, store: map<Key, Bytes>) returns (r: Result<Backup>)
    ensures r.Ok? ==> BackupOf(h, db, store, r.value)
    ensures r.Err? ==> !exists b :: BackupOf(h, db, store, b)
  {
    var listing := h.List(db);
    if listing.Err? {
      return Err;
    }
    var refs := listing.value.references;
    var entries: seq<Entry> := [];
    var files: map<Key, Bytes> := map[];
    for n := 0 to |refs|
      invariant |entries| == n
      invariant forall i :: 0 <= i < n ==> Publishable(h, store, refs[i]) && entries[i] == EntryFor(h, store, refs[i])
      invariant files == map k | k in KeysOf(refs[..n]) :: store[k]
    {
      var ref := refs[n];
      if !ValidKey(ref.key) || ref.key !in store {
        return Err;
      }
      var copy := store[ref.key];
      if !Describes(h, ref, |copy|, h.sha(copy)) {
        return Err;
      }
      entries := entries + [Entry(ref.key, h.sha(copy), |copy|)];
      KeysOfNext(refs, n);
      files := files[ref.key := copy];
    }
    assert refs[..|refs|] == refs;
    var manifest := Manifest(FORMAT, "database.db", h.sha(db), listing.value.migrations, entries);
    forall b | BackupOf(h, db, store, b) ensures b.manifest == manifest {
      assert b.manifest.blobs == entries;
    }
    if h.encodedSize(manifest) + 1 > h.maxManifest {
      return Err;
    }
    r := Ok(Backup(manifest, map["database.db" := db], files));
  }

  lemma KeysOfNext(refs: seq<Reference>, n: nat)
    requires n < |refs|
    ensures KeysOf(refs[..n + 1]) == KeysOf(refs[..n]) + {refs[n].key}
  {
    assert refs[..n + 1][n] == refs[n];
    forall k | k in KeysOf(refs[..n]) ensures k in KeysOf(refs[..n + 1]) {
      var i :| 0 <= i < n && refs[..n][i].key == k;
      assert refs[..n + 1][i].key == k;
    }
  }

  // Staging

  /** The manifest entry a key ends up with: the last one listed. */
  function LastEntry(entries: seq<Entry>, k: Key): Option<Entry> {
    if entries == [] then None
    else
      var e := entries[|entries| - 1];
      if e.key == k then Some(e) else LastEntry(entries[..|entries| - 1], k)
  }

  predicate ManifestOk(h: Host, b: Backup) {
    && h.encodedSize(b.manifest) + 1 <= h.maxManifest
    && b.manifest.version == FORMAT && ValidKey(b.manifest.databaseFile) && |b.manifest.databaseSha| == 64
    && b.Readable()
  }

  predicate Matched(h: Host, b: Backup, r: Reference) {
    && r.key in b.files
    && var e := LastEntry(b.manifest.blobs, r.key);
    && e.Some? && Describes(h, r, e.value.size, e.value.sha)
    && |b.files[r.key]| == e.value.size && EqualFold(h.sha(b.files[r.key]), e.value.sha)
  }

  /** Staging accepts b. */
  ghost predicate Acceptable(h: Host, b: Backup) {
    && ManifestOk(h, b) && h.Validates(b.Database()) && EqualFold(h.sha(b.Database()), b.manifest.databaseSha)
    && h.List(b.Database()).Ok?
    && var refs := h.List(b.Database()).value.references;
    && Joined(h.List(b.Database()).value.migrations) == Joined(b.manifest.migrations) && |refs| == |b.manifest.blobs|
    && (forall i :: 0 <= i < |b.manifest.blobs| ==> ValidKey(b.manifest.blobs[i].key))
    && (forall i :: 0 <= i < |refs| ==> Matched(h, b, refs[i]))
  }

  /** byKey holds the entry each key ends up with. */
  ghost predicate Indexes(byKey: map<Key, Entry>, entries: seq<Entry>) {
    forall k :: LastEntry(entries, k) == if k in byKey then Some(byKey[k]) else None
  }

  method IndexManifest(entries: seq<Entry>) returns (r: Result<map<Key, Entry>>)
    ensures r.Ok? <==> forall i :: 0 <= i < |entries| ==> ValidKey(entries[i].key)
    ensures r.Ok? ==> Indexes(r.value, entries)
  {
    var byKey: map<Key, Entry> := map[];
    for n := 0 to |entries|
      invariant forall i :: 0 <= i < n ==> ValidKey(entries[i].key)
      invariant Indexes(byKey, entries[..n])
    {
      if !ValidKey(entries[n].key) {
        return Err;
      }
      byKey := byKey[entries[n].key := entries[n]];
      assert entries[..n + 1][..n] == entries[..n];
    }
    assert entries[..|entries|] == entries;
    r := Ok(byKey);
  }

  /** Copies and checks one referenced blob. */
  method StageBlob(h: Host, b: Backup, byKey: map<Key, Entry>, ref: Reference) returns (r: Result<Bytes>)
    requires Indexes(byKey, b.manifest.blobs)
    ensures r.Ok? <==> Matched(h, b, ref)
    ensures r.Ok? ==> ref.key in b.files && r.value == b.files[ref.key]
  {
    ghost var found := LastEntry(b.manifest.blobs, ref.key);
    if ref.key !in byKey || !Describes(h, ref, byKey[ref.key].size, byKey[ref.key].sha) || ref.key !in b.files {
      return Err;
    }
    var copy := b.files[ref.key];
    if |copy| != byKey[ref.key].size || !EqualFold(h.sha(copy), byKey[ref.key].sha) {
      return Err;
    }
    r := Ok(copy);
  }

  method StageBlobs(h: Host, b: Backup, byKey: map<Key, Entry>, refs: seq<Reference>) returns (r: Result<map<Key, Bytes>>)
    requires Indexes(byKey, b.manifest.blobs)
    ensures r.Ok? <==> forall i :: 0 <= i < |refs| ==> Matched(h, b, refs[i])
    ensures r.Ok? ==> r.value.Keys == KeysOf(refs) && forall k :: k in r.value ==> k in b.files && r.value[k] == b.files[k]
  {
    var files: map<Key, Bytes> := map[];
    for n := 0 to |refs|
      invariant forall i :: 0 <= i < n ==> Matched(h, b, refs[i])
      invariant files.Keys == KeysOf(refs[..n])
      invariant forall k :: k in files ==> k in b.files && files[k] == b.files[k]
    {
      var copy := StageBlob(h, b, byKey, refs[n]);
      if copy.Err? {
        return Err;
      }
      KeysOfNext(refs, n);
      files := files[refs[n].key := copy.value];
    }
    assert refs[..|refs|] == refs;
    r := Ok(files);
  }

  /** Copies and verifies a backup. */
  method Stage(h: Host, b: Backup) returns (r: Result<Staged>)
    ensures r.Ok? <==> Acceptable(h, b)
    ensures r.Ok? ==> r.value.database == b.Database()
    ensures r.Ok? ==> r.value.files.Keys == KeysOf(h.List(b.Database()).value.references)
    ensures r.Ok? ==> forall k :: k in r.value.files ==> k in b.files && r.value.files[k] == b.files[k]
  {
    if !ManifestOk(h, b) {
      return Err;
    }
    if !h.Validates(b.Database()) || !EqualFold(h.sha(b.Database()), b.manifest.databaseSha) {
      return Err;
    }
    var listing := h.List(b.Database());
    if listing.Err? {
      return Err;
    }
    var refs := listing.value.references;
    if Joined(listing.value.migrations) != Joined(b.manifest.migrations) || |refs| != |b.manifest.blobs| {
      return Err;
    }
    var index := IndexManifest(b.manifest.blobs);
    if index.Err? {
      return Err;
    }
    var files := StageBlobs(h, b, index.value, refs);
    r := if files.Ok? then Ok(Staged(b.Database(), files.value)) else Err;
  }

  // The promises

  lemma {:induction false} LastEntryListed(entries: seq<Entry>, i: nat) returns (k: nat)
    requires i < |entries|
    ensures k < |entries| && entries[k].key == entries[i].key && LastEntry(entries, entries[i].key) == Some(entries[k])
  {
    k := |entries| - 1;
    if entries[k].key != entries[i].key {
      k := LastEntryListed(entries[..k], i);
    }
  }

  lemma PublishedMatches(h: Host, db: Bytes, store: map<Key, Bytes>, b: Backup, i: nat)
    requires BackupOf(h, db, store, b) && i < |h.List(db).value.references|
    ensures Matched(h, b, h.List(db).value.references[i]) && ValidKey(b.manifest.blobs[i].key)
  {
    var refs, entries := h.List(db).value.references, b.manifest.blobs;
    assert Publishable(h, store, refs[i]);
    var k := LastEntryListed(entries, i);
    assert entries[k] == EntryFor(h, store, refs[i]);
    assert refs[i].key in KeysOf(refs);
  }

  /** An unmodified backup passes staging exactly when its database passes
      validation (publishing does not validate it). */
  lemma PublishedIsAcceptable(h: Host, db: Bytes, store: map<Key, Bytes>, b: Backup)
    requires Hashes(h) && BackupOf(h, db, store, b)
    ensures Acceptable(h, b) <==> h.Validates(db)
    ensures h.read(db).Some?
    ensures var d := h.read(db).value;
      Acceptable(h, b) <==>
      d.intact && !d.orphans && {"schema_migrations", "instances", "accounts", "message_envelopes"} <= d.tables
  {
    forall i | 0 <= i < |h.List(db).value.references|
      ensures Matched(h, b, h.List(db).value.references[i]) && ValidKey(b.manifest.blobs[i].key)
    {
      PublishedMatches(h, db, store, b, i);
    }
  }

  // A database that lists its blobs, holds every table and passes the quick
  // check, but has a row whose foreign key points nowhere

  const blob: Bytes := [1]
  const orphaned := Database(true, LISTED + REQUIRED, [Reference("blob", "", 1)], ["0001"], true)

  function Disk(): Host { Host(_ => seq(64, _ => '0'), _ => Some(orphaned), _ => 0, 1) }

  /** Publishing does not validate: that database is backed up with its blob, and
      the backup is refused. Only its foreign key is to blame. */
  lemma PublishedCanBeRefused(db: Bytes) returns (b: Backup)
    ensures Hashes(Disk()) && BackupOf(Disk(), db, map["blob" := blob], b) && !Acceptable(Disk(), b)
    ensures Acceptable(Disk().(read := _ => Some(orphaned.(orphans := false))), b)
  {
    var h, mended := Disk(), Disk().(read := _ => Some(orphaned.(orphans := false)));
    var store: map<Key, Bytes> := map["blob" := blob];
    var refs := orphaned.rows;
    b := Backup(Manifest(FORMAT, "database.db", h.sha(db), ["0001"], [EntryFor(h, store, refs[0])]),
                map["database.db" := db], store);
    assert KeysOf(refs) == {"blob"} by {
      assert refs[0].key == "blob";
    }
    assert Publishable(h, store, refs[0]);
    assert BackupOf(h, db, store, b);
    assert BackupOf(mended, db, store, b);
    PublishedIsAcceptable(h, db, store, b);
    PublishedIsAcceptable(mended, db, store, b);
  }

  /** Backing up and restoring: it works exactly for a database that validates,
      lists its blobs, and whose blobs are in the store as recorded, and it gives
      that database and those blobs back byte for byte. */
  method BackUpAndStage(h: Host, db: Bytes, store: map<Key, Bytes>) returns (r: Result<Staged>)
    requires Hashes(h)
    ensures r.Ok? <==> h.Validates(db) && exists b :: BackupOf(h, db, store, b)
    ensures r.Ok? ==> r.value == Staged(db, map k | k in KeysOf(h.List(db).value.references) && k in store :: store[k])
  {
    var b := Publish(h, db, store);
    if b.Err? {
      return Err;
    }
    PublishedIsAcceptable(h, db, store, b.value);
    r := Stage(h, b.value);
    if r.Ok? {
      StagedIsWhatWasBackedUp(h, db, store, b.value, r.value);
    }
  }

  /** What is staged from an unmodified backup is the database and every blob
      it refers to, byte for byte. */
  lemma StagedIsWhatWasBackedUp(h: Host, db: Bytes, store: map<Key, Bytes>, b: Backup, s: Staged)
    requires BackupOf(h, db, store, b)
    requires b.Readable() && s.database == b.Database() && s.files.Keys == KeysOf(h.List(b.Database()).value.references)
    requires forall k :: k in s.files ==> k in b.files && s.files[k] == b.files[k]
    ensures s == Staged(db, map k | k in KeysOf(h.List(db).value.references) && k in store :: store[k])
  {
    var refs := h.List(db).value.references;
    forall k | k in KeysOf(refs) ensures k in store {
      var i :| 0 <= i < |refs| && refs[i].key == k;
      assert Publishable(h, store, refs[i]);
    }
  }

  predicate DistinctKeys(keys: seq<Key>) { forall i, j :: 0 <= i < j < |keys| ==> keys[i] != keys[j] }

  function RefKeys(refs: seq<Reference>): seq<Key> { seq(|refs|, i requires 0 <= i < |refs| => refs[i].key) }

  function EntryKeys(es: seq<Entry>): seq<Key> { seq(|es|, i requires 0 <= i < |es| => es[i].key) }

  function Elements(keys: seq<Key>): set<Key> { set k | k in keys }

  lemma {:induction false} DistinctCount(keys: seq<Key>)
    ensures |Elements(keys)| <= |keys|
    ensures |Elements(keys)| == |keys| <==> DistinctKeys(keys)
  {
    if keys != [] {
      var n := |keys| - 1;
      DistinctCount(keys[..n]);
      assert keys == keys[..n] + [keys[n]];
      assert Elements(keys) == Elements(keys[..n]) + {keys[n]};
      if keys[n] in keys[..n] {
        assert Elements(keys) == Elements(keys[..n]);
      }
    }
  }

  lemma SubsetCount(a: set<Key>, b: set<Key>)
    requires a <= b && |b| <= |a|
    ensures a == b
  {
    if k :| k in b && k !in a {
      assert a <= b - {k};
      SubsetSize(a, b - {k});
      assert false;
    }
  }

  lemma {:induction false} SubsetSize(a: set<Key>, b: set<Key>)
    requires a <= b
    ensures |a| <= |b|
    decreases a
  {
    if k :| k in a {
      SubsetSize(a - {k}, b - {k});
    }
  }

  lemma {:induction false} ListedSomewhere(entries: seq<Entry>, k: Key) returns (j: nat)
    requires LastEntry(entries, k).Some?
    ensures j < |entries| && entries[j].key == k
  {
    j := |entries| - 1;
    if entries[j].key != k {
      j := ListedSomewhere(entries[..j], k);
    }
  }

  /** A manifest that staging accepts for distinct references lists exactly
      those keys, each once: nothing extra rides along. */
  lemma ManifestIsExact(h: Host, b: Backup)
    requires Acceptable(h, b) && DistinctKeys(RefKeys(h.List(b.Database()).value.references))
    ensures Elements(EntryKeys(b.manifest.blobs)) == Elements(RefKeys(h.List(b.Database()).value.references))
    ensures DistinctKeys(EntryKeys(b.manifest.blobs))
  {
    var refs, entries := RefKeys(h.List(b.Database()).value.references), EntryKeys(b.manifest.blobs);
    DistinctCount(refs);
    DistinctCount(entries);
    forall k | k in Elements(refs) ensures k in Elements(entries) {
      var i :| 0 <= i < |refs| && refs[i] == k;
      assert Matched(h, b, h.List(b.Database()).value.references[i]);
      var j := ListedSomewhere(b.manifest.blobs, k);
      assert entries[j] == k;
    }
    SubsetCount(Elements(refs), Elements(entries));
  }
}
