/**
 What staging's checks amount to: which names are keys, which hashes and which
 lists of migrations count as equal, and so what every accepted backup holds.
 */
module BackupContents {
  import opened BackupStaging

  // Names

  function Unslashed(path: string): string {
    if path != "" && path[|path| - 1] == '/' then Unslashed(path[..|path| - 1]) else path
  }

  /** What follows the last slash. */
  function LastPart(path: string): string {
    if path == "" || path[|path| - 1] == '/' then "" else LastPart(path[..|path| - 1]) + [path[|path| - 1]]
  }

  /** The last element of a path, as filepath.Base gives it. */
  function Base(path: string): string {
    if path == "" then "."
    else if Unslashed(path) == "" then "/"
    else LastPart(Unslashed(path))
  }

  lemma {:induction false} LastPartIsPlain(path: string)
    ensures |LastPart(path)| <= |path| && '/' !in LastPart(path)
    ensures LastPart(path) == path <==> '/' !in path
  {
    if path != "" {
      var n := |path| - 1;
      LastPartIsPlain(path[..n]);
      assert path == path[..n] + [path[n]];
      if path[n] != '/' && LastPart(path) == path {
        assert LastPart(path)[..n] == path[..n];
      }
    }
  }

  lemma {:induction false} UnslashedIsShorter(path: string)
    ensures |Unslashed(path)| <= |path|
    ensures path != "" && path[|path| - 1] == '/' ==> |Unslashed(path)| < |path|
  {
    if path != "" && path[|path| - 1] == '/' {
      UnslashedIsShorter(path[..|path| - 1]);
    }
  }

  /** A name that is its own base, and no dot name. */
  predicate PlainName(k: string) { Base(k) == k && k != "" && k != "." && k != ".." }

  lemma KeysAreBases(k: Key)
    ensures ValidKey(k) <==> PlainName(k)
  {
    if k != "" {
      UnslashedIsShorter(k);
      LastPartIsPlain(Unslashed(k));
      if k == "/" {
        assert Unslashed(k) == Unslashed(k[..0]);
      }
    }
  }

  // Hashes

  /** The same letter, or its two cases. */
  predicate SameLetter(a: char, b: char) {
    || a == b
    || ('A' <= a <= 'Z' && b as int == a as int + 32)
    || ('A' <= b <= 'Z' && a as int == b as int + 32)
  }

  predicate SameHash(a: string, b: string) {
    |a| == |b| && forall i | 0 <= i < |a| :: SameLetter(a[i], b[i])
  }

  lemma FoldsExactly(a: string, b: string)
    ensures EqualFold(a, b) <==> SameHash(a, b)
  {
    if EqualFold(a, b) {
      assert |Lower(a)| == |Lower(b)|;
      forall i | 0 <= i < |a| ensures SameLetter(a[i], b[i]) {
        assert Lower(a)[i] == Lower(b)[i];
      }
    }
  }

  // Migrations

  predicate Unbroken(versions: seq<string>) { forall i | 0 <= i < |versions| :: '\0' !in versions[i] }

  function Breaks(s: string): nat {
    if s == "" then 0 else Breaks(s[..|s| - 1]) + if s[|s| - 1] == '\0' then 1 else 0
  }

  lemma {:induction false} BreaksAdd(a: string, b: string)
    ensures Breaks(a + b) == Breaks(a) + Breaks(b)
  {
    if b == "" {
      assert a + b == a;
    } else {
      var n := |b| - 1;
      assert (a + b)[..|a + b| - 1] == a + b[..n];
      BreaksAdd(a, b[..n]);
    }
  }

  lemma {:induction false} NoBreaks(s: string)
    ensures Breaks(s) == 0 <==> '\0' !in s
  {
    if s != "" {
      NoBreaks(s[..|s| - 1]);
      assert s == s[..|s| - 1] + [s[|s| - 1]];
    }
  }

  lemma {:induction false} JoinedBreaks(versions: seq<string>)
    requires Unbroken(versions)
    ensures Breaks(Joined(versions)) == if versions == [] then 0 else |versions| - 1
  {
    if |versions| == 1 {
      NoBreaks(versions[0]);
    } else if versions != [] {
      var n := |versions| - 1;
      JoinedBreaks(versions[..n]);
      NoBreaks(versions[n]);
      assert Breaks(['\0']) == 1;
      BreaksAdd(Joined(versions[..n]), ['\0']);
      BreaksAdd(Joined(versions[..n]) + ['\0'], versions[n]);
    }
  }

  /** The last break splits a text in one way only. */
  lemma LastBreak(a: string, x: string, b: string, y: string)
    requires '\0' !in x && '\0' !in y && a + ['\0'] + x == b + ['\0'] + y
    ensures a == b && x == y
  {
    var s, t := a + ['\0'] + x, b + ['\0'] + y;
    assert s[|a|] == '\0' && t[|b|] == '\0';
    assert |a| == |b|;
    assert a == s[..|a|] && b == t[..|b|];
    assert x == s[|a| + 1..] && y == t[|b| + 1..];
  }

  lemma {:induction false} JoinedApart(a: seq<string>, b: seq<string>)
    requires Unbroken(a) && Unbroken(b) && |a| == |b| && Joined(a) == Joined(b)
    ensures a == b
  {
    if |a| > 1 {
      var n := |a| - 1;
      LastBreak(Joined(a[..n]), a[n], Joined(b[..n]), b[n]);
      JoinedApart(a[..n], b[..n]);
      assert a == a[..n] + [a[n]] && b == b[..n] + [b[n]];
    }
  }

  /** Joined lists are equal exactly when the lists are, except that no version
      and one empty version look alike. */
  lemma JoinedExactly(a: seq<string>, b: seq<string>)
    requires Unbroken(a) && Unbroken(b)
    ensures Joined(a) == Joined(b) <==> a == b || (a == [] && b == [""]) || (a == [""] && b == [])
  {
    if Joined(a) == Joined(b) {
      JoinedBreaks(a);
      JoinedBreaks(b);
      if |a| == |b| {
        JoinedApart(a, b);
      }
    }
  }

  // What is accepted

  /** A file in the backup is the blob a row describes. */
  predicate Holds(h: Host, b: Backup, r: Reference) {
    && r.key in b.files && |b.files[r.key]| == r.size
    && (r.sha == "" || SameHash(h.sha(b.files[r.key]), r.sha))
  }

  /** A manifest of this format and a size that can be read, with plain names; and a
      database that is sound, complete, and the one whose hash and migrations the
      manifest records. */
  ghost predicate Sound(h: Host, b: Backup) {
    && b.manifest.version == "v1" && h.encodedSize(b.manifest) < h.maxManifest && |b.manifest.databaseSha| == 64
    && PlainName(b.manifest.databaseFile) && (forall i | 0 <= i < |b.manifest.blobs| :: PlainName(b.manifest.blobs[i].key))
    && b.manifest.databaseFile in b.top
    && var db := b.top[b.manifest.databaseFile];
    && SameHash(h.sha(db), b.manifest.databaseSha)
    && h.read(db).Some?
    && var d := h.read(db).value;
    && d.intact && !d.orphans
    && "schema_migrations" in d.tables && "instances" in d.tables && "accounts" in d.tables && "message_envelopes" in d.tables
    && (Unbroken(d.migrations) && Unbroken(b.manifest.migrations) && "" !in d.migrations && "" !in b.manifest.migrations ==>
          d.migrations == b.manifest.migrations)
    && (forall i | 0 <= i < |d.rows| :: Holds(h, b, d.rows[i]))
  }

  lemma Folded(a: string, b: string, c: string)
    requires SameHash(a, b) && SameHash(b, c)
    ensures SameHash(a, c)
  {
    forall i | 0 <= i < |a| ensures SameLetter(a[i], c[i]) {
      assert SameLetter(a[i], b[i]) && SameLetter(b[i], c[i]);
    }
  }

  lemma MatchedHolds(h: Host, b: Backup, r: Reference)
    requires Matched(h, b, r)
    ensures Holds(h, b, r)
  {
    var e, sha := LastEntry(b.manifest.blobs, r.key).value, h.sha(b.files[r.key]);
    FoldsExactly(sha, e.sha);
    if r.sha != "" {
      FoldsExactly(e.sha, r.sha);
      Folded(sha, e.sha, r.sha);
    }
  }

  /** Every accepted backup has a readable manifest, a sound database with the
      recorded hash and migrations, and under every key that database refers to a
      file of the recorded size and hash. */
  lemma AcceptedIsSound(h: Host, b: Backup)
    requires Acceptable(h, b)
    ensures Sound(h, b)
  {
    var db := b.top[b.manifest.databaseFile];
    var d := h.read(db).value;
    FoldsExactly(h.sha(db), b.manifest.databaseSha);
    KeysAreBases(b.manifest.databaseFile);
    forall i | 0 <= i < |b.manifest.blobs| ensures PlainName(b.manifest.blobs[i].key) {
      KeysAreBases(b.manifest.blobs[i].key);
    }
    if Unbroken(d.migrations) && Unbroken(b.manifest.migrations) {
      JoinedExactly(d.migrations, b.manifest.migrations);
    }
    forall i | 0 <= i < |d.rows| ensures Holds(h, b, d.rows[i]) {
      assert Matched(h, b, h.List(db).value.references[i]);
      MatchedHolds(h, b, d.rows[i]);
    }
  }

  /** One changed blob file is enough for a refusal. */
  lemma ChangedBlobIsRefused(h: Host, b: Backup, i: nat, file: Bytes)
    requires b.manifest.databaseFile in b.top && h.read(b.top[b.manifest.databaseFile]).Some?
    requires i < |h.read(b.top[b.manifest.databaseFile]).value.rows|
    requires var r := h.read(b.top[b.manifest.databaseFile]).value.rows[i];
      |file| != r.size || (r.sha != "" && !SameHash(h.sha(file), r.sha))
    ensures var r := h.read(b.top[b.manifest.databaseFile]).value.rows[i];
      !Acceptable(h, b.(files := b.files[r.key := file]))
  {
    var r := h.read(b.top[b.manifest.databaseFile]).value.rows[i];
    var changed := b.(files := b.files[r.key := file]);
    assert !Holds(h, changed, r);
    if Acceptable(h, changed) {
      AcceptedIsSound(h, changed);
    }
  }
}
