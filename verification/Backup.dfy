/**
  Taking and restoring a backup (blockchain/src/shell.js and the /chain handler of blockchain/src/index.js).

  YAML, the archive format and the configuration check are parameters; an archive carries a directory's entries
  in order.
*/
module Backup {
  import opened Prelude
  import opened DirectoryHash

  const METADATA := "metadata.yml"
  const CONF := "multichain.conf"
  /** What a template literal prints for the hash when hashing failed. */
  const UNDEFINED := "undefined"

  type Directory = seq<Entry>

  datatype Metadata =
    Metadata(chainName: string, organisation: string, timestamp: int, directoryHash: string, version: string)

  /** The fields of a loaded metadata file; a missing field is None. */
  datatype Config = Config(organisation: Option<string>, version: Option<string>, directoryHash: Option<string>)

  /**
    What a node brings to the protocol.  `parse` is None when loading the text throws; `hasPassword` is None when
    the configuration is not text.
  */
  datatype Site = Site(
    hashing: Hashing,
    render: Metadata -> Bytes,
    parse: Bytes -> Option<Config>,
    hasPassword: Bytes -> Option<bool>,
    organisation: string,
    version: string)

  datatype Verdict = Accepted | MetadataMissing | NotPermitted | NotValid | Crashed

  function Lookup(d: Directory, name: string): Option<Node> {
    if d == [] then None else if d[0].name == name then Some(d[0].node) else Lookup(d[1..], name)
  }

  function Without(d: Directory, name: string): Directory {
    if d == [] then [] else Unless(d[0], name) + Without(d[1..], name)
  }

  function Unless(e: Entry, name: string): Directory {
    if e.name != name then [e] else []
  }

  /** The part before the first dot. */
  function Major(version: string): string {
    if version == "" || version[0] == '.' then "" else [version[0]] + Major(version[1..])
  }

  /** The version up to its first dot, or all of it if there is none. */
  ghost predicate UpToDot(version: string, part: string) {
    '.' !in part && part <= version && (|part| < |version| ==> version[|part|] == '.')
  }

  ghost predicate SameMajor(a: string, b: string) {
    exists part :: UpToDot(a, part) && UpToDot(b, part)
  }

  lemma {:induction false} MajorIs(version: string)
    ensures UpToDot(version, Major(version))
  {
    if version != "" && version[0] != '.' {
      MajorIs(version[1..]);
      var part := Major(version[1..]);
      assert version == [version[0]] + version[1..];
      assert [version[0]] + part <= version;
    }
  }

  lemma UpToDotUnique(version: string, a: string, b: string)
    requires UpToDot(version, a) && UpToDot(version, b)
    ensures a == b
  {
  }

  /** What comparing the major versions compares. */
  lemma SameMajorIff(a: string, b: string)
    ensures Major(a) == Major(b) <==> SameMajor(a, b)
  {
    MajorIs(a);
    MajorIs(b);
    if SameMajor(a, b) {
      var part :| UpToDot(a, part) && UpToDot(b, part);
      UpToDotUnique(a, part, Major(a));
      UpToDotUnique(b, part, Major(b));
    }
  }

  predicate Hidden(e: Entry) {
    e.name != "" && e.name[0] == '.'
  }

  /** What a shell star pattern selects in the directory. */
  function Globbed(d: Directory): Directory {
    if d == [] then [] else (if !Hidden(d[0]) then [d[0]] else []) + Globbed(d[1..])
  }

  /** `part` holds the entries of d whose names do not start with a dot, in their order. */
  ghost predicate VisibleEntries(d: Directory, part: Directory) {
    exists at :: PickedAt(d, at, part) && forall k :: 0 <= k < |d| ==> (k in at <==> !("." <= d[k].name))
  }

  /** `after` is `before` with the file of that name created or overwritten, wherever readdir lists it. */
  ghost predicate Written(before: Directory, after: Directory, name: string, content: Bytes) {
    Without(after, name) == Without(before, name) && Lookup(after, name) == Some(File(content))
  }

  function HashText(s: Site, d: Directory): string {
    var digest := DirDigest(s.hashing, d);
    if digest.Ok? then digest.value else UNDEFINED
  }

  /** `archive` is what the backup of `d` packs. */
  ghost predicate BackupOf(s: Site, d: Directory, archive: Directory) {
    exists chainName, timestamp ::
      Written(d, archive, METADATA, s.render(Metadata(chainName, s.organisation, timestamp, HashText(s, d), s.version)))
  }

  // ---------------------------------------------------------------- admission

  predicate ConfPermits(s: Site, d: Directory) {
    var conf := Lookup(d, CONF);
    conf.Some? && conf.value.File? && s.hasPassword(conf.value.content) == Some(true)
  }

  predicate Permits(s: Site, c: Config, d: Directory) {
    && ConfPermits(s, d)
    && (c.organisation == None || c.organisation == Some(s.organisation))
    && c.version.Some? && Major(c.version.value) == Major(s.version)
  }

  /** The configuration loaded from the metadata file, if there is one and loading it does not throw. */
  function Loaded(s: Site, archive: Directory): Option<Config> {
    var meta := Lookup(archive, METADATA);
    if meta.Some? && meta.value.File? then s.parse(meta.value.content) else None
  }

  /** The checks all run to their end: the content can be hashed and the chain configuration read. */
  predicate Checkable(s: Site, archive: Directory) {
    var conf := Lookup(Without(archive, METADATA), CONF);
    && Loaded(s, archive).Some?
    && DirDigest(s.hashing, Without(archive, METADATA)).Ok?
    && conf.Some? && conf.value.File? && s.hasPassword(conf.value.content).Some?
  }

  predicate HashMatches(s: Site, c: Config, archive: Directory) {
    var digest := DirDigest(s.hashing, Without(archive, METADATA));
    digest.Ok? && c.directoryHash == Some(digest.value)
  }

  predicate Accepts(s: Site, archive: Directory) {
    var c := Loaded(s, archive);
    c.Some? && Permits(s, c.value, Without(archive, METADATA)) && HashMatches(s, c.value, archive)
  }

  // ---------------------------------------------------------------- the file system

  /** The three directories the backup code works on; None when it does not exist. */
  class Disk {
    var chain: Option<Directory>
    var extracted: Option<Directory>
    var previous: Option<Directory>

    constructor (chain: Option<Directory>, extracted: Option<Directory>, previous: Option<Directory>)
      ensures this.chain == chain && this.extracted == extracted && this.previous == previous
    {
      this.chain, this.extracted, this.previous := chain, extracted, previous;
    }

    /** createMetadataFileSha256: hash first, then write the file; a failed hash does not stop the backup. */
    method CreateMetadataFile(s: Site, chainName: string, timestamp: int)
      requires chain.Some?
      modifies this`chain
      ensures chain.Some? && BackupOf(s, old(chain.value), chain.value)
      ensures var digest := DirDigest(s.hashing, old(chain.value));
              var text := if digest.Ok? then digest.value else "undefined";
              Written(old(chain.value), chain.value, "metadata.yml",
                      s.render(Metadata(chainName, s.organisation, timestamp, text, s.version)))
    {
      var dirHash := Run(s.hashing, chain.value);
      var text := if dirHash.Ok? then dirHash.value else UNDEFINED;
      assert text == HashText(s, chain.value);
      WriteFile(METADATA, s.render(Metadata(chainName, s.organisation, timestamp, text, s.version)));
    }

    method WriteFile(name: string, content: Bytes)
      requires chain.Some?
      modifies this`chain
      ensures chain.Some? && Written(old(chain.value), chain.value, name, content)
    {
      var rest := Without(chain.value, name);
      var at: nat :| at <= |rest|;
      var after := rest[..at] + [Entry(name, File(content))] + rest[at..];
      WrittenAt(chain.value, name, content, at);
      chain := Some(after);
    }

    /** The checks of the /chain handler, in its order; the metadata file is removed before the digest is taken. */
    method Admit(s: Site) returns (v: Verdict)
      requires extracted.Some?
      modifies this`extracted
      ensures v == Accepted <==> Accepts(s, old(extracted.value))
      ensures v == Accepted <==>
              exists meta, conf ::
                && Lookup(old(extracted.value), "metadata.yml") == Some(File(meta))
                && Lookup(old(extracted.value), "multichain.conf") == Some(File(conf))
                && s.hasPassword(conf) == Some(true) && s.parse(meta).Some?
                && var c := s.parse(meta).value;
                && (c.organisation.Some? ==> c.organisation.value == s.organisation)
                && c.version.Some? && SameMajor(c.version.value, s.version)
                && c.directoryHash.Some?
                && DirDigest(s.hashing, Without(old(extracted.value), "metadata.yml")) == Ok(c.directoryHash.value)
      ensures v == Accepted || v == NotPermitted || v == NotValid <==>
              exists meta, conf ::
                && Lookup(old(extracted.value), "metadata.yml") == Some(File(meta))
                && Lookup(old(extracted.value), "multichain.conf") == Some(File(conf))
                && s.hasPassword(conf).Some? && s.parse(meta).Some?
                && DirDigest(s.hashing, Without(old(extracted.value), "metadata.yml")).Ok?
      ensures v == MetadataMissing <==>
              Lookup(old(extracted.value), METADATA) == None ||
                Lookup(old(extracted.value), METADATA) == Some(Unreadable)
      ensures v == NotPermitted <==>
              Checkable(s, old(extracted.value)) &&
              !Permits(s, Loaded(s, old(extracted.value)).value, Without(old(extracted.value), METADATA))
      ensures v == NotValid <==>
              Checkable(s, old(extracted.value)) &&
              Permits(s, Loaded(s, old(extracted.value)).value, Without(old(extracted.value), METADATA)) &&
              !HashMatches(s, Loaded(s, old(extracted.value)).value, old(extracted.value))
      ensures v == Accepted || v == NotValid || v == NotPermitted ==>
              extracted == Some(Without(old(extracted.value), METADATA))
      ensures v == MetadataMissing ==> extracted == old(extracted)
    {
      AcceptsIff(s, extracted.value);
      var meta := Lookup(extracted.value, METADATA);
      if meta.None? || meta.value.Unreadable? {
        return MetadataMissing;
      }
      if !meta.value.File? {
        return Crashed;
      }
      var loaded := s.parse(meta.value.content);
      if loaded.None? {
        return Crashed;
      }
      var config := loaded.value;
      extracted := Some(Without(extracted.value, METADATA));
      var dirHash := Run(s.hashing, extracted.value);
      if dirHash.Err? {
        return Crashed;
      }
      var validSha256 := config.directoryHash == Some(dirHash.value);
      var conf := Lookup(extracted.value, CONF);
      if conf.None? || !conf.value.File? {
        return Crashed;
      }
      var hasPassword := s.hasPassword(conf.value.content);
      if hasPassword.None? {
        return Crashed;
      }
      var correctConfig := hasPassword.value;
      if config.organisation.Some? {
        correctConfig := correctConfig && config.organisation.value == s.organisation;
      }
      var compatibleVersions := config.version.Some? && Major(config.version.value) == Major(s.version);
      if correctConfig && compatibleVersions {
        v := if validSha256 then Accepted else NotValid;
      } else {
        v := NotPermitted;
      }
    }

    /** moveBackup: both copies use a shell pattern; nothing is installed when there is no chain directory yet. */
    method MoveBackup()
      requires extracted.Some?
      modifies this
      ensures extracted == None
      ensures old(chain).Some? ==>
          previous == Some(Globbed(old(chain.value))) && chain == Some(Globbed(old(extracted.value)))
      ensures old(chain).None? ==> previous == Some([]) && chain == None
    {
      CreateCurrentChainBackupDir();
      if chain.Some? {
        previous := Some(previous.value + Globbed(chain.value));
        assert previous.value == Globbed(chain.value);
        chain := None;
        chain := Some([]);
        chain := Some(chain.value + Globbed(extracted.value));
        assert chain.value == Globbed(extracted.value);
      }
      extracted := None;
    }

    method CreateCurrentChainBackupDir()
      modifies this`previous
      ensures previous == Some([])
    {
      if previous.Some? {
        previous := None;
      }
      previous := Some([]);
    }
  }

  // ---------------------------------------------------------------- theorems

  /** What a name stands for in a directory: the first entry of that name. */
  lemma {:induction false} LookupFirst(d: Directory, name: string, i: nat)
    requires i <= |d| && forall j :: 0 <= j < i ==> d[j].name != name
    ensures i < |d| && d[i].name == name ==> Lookup(d, name) == Some(d[i].node)
    ensures i == |d| ==> Lookup(d, name) == None
  {
    if i > 0 {
      LookupFirst(d[1..], name, i - 1);
    }
  }

  /** Without a name a directory has the other entries, in their order. */
  lemma {:induction false} WithoutFilters(d: Directory, name: string, p: Entry -> bool)
    requires forall e :: p(e) <==> e.name != name
    ensures Without(d, name) == Filter(d, p)
  {
    if d != [] {
      WithoutFilters(d[1..], name, p);
    }
  }

  lemma {:induction false} GlobbedFilters(d: Directory, p: Entry -> bool)
    requires forall e :: p(e) <==> !Hidden(e)
    ensures Globbed(d) == Filter(d, p)
  {
    if d != [] {
      GlobbedFilters(d[1..], p);
    }
  }

  /** A star pattern selects the entries whose names do not start with a dot, in their order. */
  lemma GlobbedPicks(d: Directory) returns (at: seq<nat>)
    ensures PickedAt(d, at, Globbed(d)) && forall k :: 0 <= k < |d| ==> (k in at <==> !("." <= d[k].name))
  {
    var p := (e: Entry) => !Hidden(e);
    GlobbedFilters(d, p);
    at := FilterPicks(d, p);
  }

  lemma {:induction false} WithoutMembers(d: Directory, name: string, e: Entry)
    ensures e in Without(d, name) <==> e in d && e.name != name
  {
    if d != [] {
      WithoutMembers(d[1..], name, e);
    }
  }

  lemma {:induction false} GlobbedMembers(d: Directory, e: Entry)
    ensures e in Globbed(d) <==> e in d && !Hidden(e)
  {
    if d != [] {
      GlobbedMembers(d[1..], e);
    }
  }

  lemma {:induction false} WithoutAppend(a: Directory, b: Directory, name: string)
    ensures Without(a + b, name) == Without(a, name) + Without(b, name)
  {
    if a == [] {
      assert a + b == b;
    } else {
      WithoutAppend(a[1..], b, name);
      assert (a + b)[1..] == a[1..] + b;
      ConcatAssoc(Unless(a[0], name), Without(a[1..], name), Without(b, name));
    }
  }

  lemma {:induction false} WithoutAbsent(d: Directory, name: string)
    requires forall e :: e in d ==> e.name != name
    ensures Without(d, name) == d
  {
    if d != [] {
      WithoutAbsent(d[1..], name);
    }
  }

  lemma {:induction false} LookupAppend(a: Directory, b: Directory, name: string)
    requires forall e :: e in a ==> e.name != name
    ensures Lookup(a + b, name) == Lookup(b, name)
  {
    if a == [] {
      assert a + b == b;
    } else {
      LookupAppend(a[1..], b, name);
      assert (a + b)[1..] == a[1..] + b;
    }
  }

  /** An entry put between others that do not have its name. */
  lemma InsertedBetween(front: Directory, e: Entry, back: Directory)
    requires forall x :: x in front || x in back ==> x.name != e.name
    ensures Without(front + ([e] + back), e.name) == front + back
    ensures Lookup(front + ([e] + back), e.name) == Some(e.node)
  {
    assert ([e] + back)[1..] == back;
    assert Without([e] + back, e.name) == Without(back, e.name);
    WithoutAppend(front, [e] + back, e.name);
    WithoutAbsent(front, e.name);
    WithoutAbsent(back, e.name);
    LookupAppend(front, [e] + back, e.name);
  }

  lemma WrittenAt(d: Directory, name: string, content: Bytes, at: nat)
    requires at <= |Without(d, name)|
    ensures var rest := Without(d, name);
            Written(d, rest[..at] + [Entry(name, File(content))] + rest[at..], name, content)
  {
    var rest, e := Without(d, name), Entry(name, File(content));
    var front, back := rest[..at], rest[at..];
    forall x | x in front || x in back
      ensures x.name != name
    {
      assert x in rest;
      WithoutMembers(d, name, x);
    }
    InsertedBetween(front, e, back);
    ConcatAssoc(front, [e], back);
    assert front + back == rest;
  }

  /** Removing entries of an ignored name changes neither what is hashed nor whether it can be hashed. */
  lemma {:induction false} WithoutIgnoredName(h: Hashing, d: Directory, name: string)
    requires h.ignored(name)
    ensures Trees(h, Without(d, name)) == Trees(h, d)
    ensures Readable(h, Without(d, name)) == Readable(h, d)
  {
    if d != [] {
      WithoutIgnoredName(h, d[1..], name);
      if d[0].name == name {
        assert Without(d, name) == Without(d[1..], name);
      } else {
        assert Without(d, name) == [d[0]] + Without(d[1..], name);
      }
    }
  }

  /** The digest survives writing the metadata file, packing, extracting and deleting the metadata file. */
  lemma DigestSurvivesMetadata(h: Hashing, d: Directory, archive: Directory, content: Bytes)
    requires h.ignored(METADATA) && Written(d, archive, METADATA, content)
    ensures DirDigest(h, archive) == DirDigest(h, d)
    ensures DirDigest(h, Without(archive, METADATA)) == DirDigest(h, d)
  {
    WithoutIgnoredName(h, d, METADATA);
    WithoutIgnoredName(h, archive, METADATA);
  }

  lemma {:induction false} LookupWithout(d: Directory, name: string, other: string)
    requires name != other
    ensures Lookup(Without(d, other), name) == Lookup(d, name)
  {
    if d != [] {
      LookupWithout(d[1..], name, other);
      if d[0].name != other {
        assert Without(d, other) == [d[0]] + Without(d[1..], other);
      } else {
        assert Without(d, other) == Without(d[1..], other);
      }
    }
  }

  /** When a configuration and a chain directory are permitted; an organisation that is not given is no objection. */
  lemma PermitsIff(s: Site, c: Config, d: Directory)
    ensures Permits(s, c, d) <==>
            && (exists text :: Lookup(d, "multichain.conf") == Some(File(text)) && s.hasPassword(text) == Some(true))
            && (c.organisation.Some? ==> c.organisation.value == s.organisation)
            && c.version.Some? && SameMajor(c.version.value, s.version)
  {
    if c.version.Some? {
      SameMajorIff(c.version.value, s.version);
    }
    if ConfPermits(s, d) {
      var text := Lookup(d, CONF).value.content;
      assert Lookup(d, "multichain.conf") == Some(File(text));
    }
  }

  /** The checks on an archive, in terms of the texts of its two files. */
  lemma AcceptsIff(s: Site, archive: Directory)
    ensures Accepts(s, archive) <==>
            exists meta, conf ::
              && Lookup(archive, "metadata.yml") == Some(File(meta))
              && Lookup(archive, "multichain.conf") == Some(File(conf))
              && s.hasPassword(conf) == Some(true) && s.parse(meta).Some?
              && var c := s.parse(meta).value;
              && (c.organisation.Some? ==> c.organisation.value == s.organisation)
              && c.version.Some? && SameMajor(c.version.value, s.version)
              && c.directoryHash.Some?
              && DirDigest(s.hashing, Without(archive, "metadata.yml")) == Ok(c.directoryHash.value)
    ensures Checkable(s, archive) <==>
            exists meta, conf ::
              && Lookup(archive, "metadata.yml") == Some(File(meta))
              && Lookup(archive, "multichain.conf") == Some(File(conf))
              && s.hasPassword(conf).Some? && s.parse(meta).Some?
              && DirDigest(s.hashing, Without(archive, "metadata.yml")).Ok?
  {
    LookupWithout(archive, CONF, METADATA);
    var c := Loaded(s, archive);
    if c.Some? {
      PermitsIff(s, c.value, Without(archive, METADATA));
      var meta := Lookup(archive, METADATA).value.content;
      assert Lookup(archive, "metadata.yml") == Some(File(meta));
    }
  }

  /** Loading what was written gives back the three fields, as text. */
  ghost predicate LoadsBack(from: Site, to: Site) {
    forall m: Metadata ::
      to.parse(from.render(m)) == Some(Config(Some(m.organisation), Some(m.version), Some(m.directoryHash)))
  }

  /**
    A backup is accepted by a node exactly when the directory could be hashed when it was taken, the node has the
    same organisation and major version, and the packed configuration holds its RPC password.
  */
  lemma BackupAcceptedIff(from: Site, to: Site, d: Directory, archive: Directory)
    requires BackupOf(from, d, archive)
    requires from.hashing == to.hashing && to.hashing.ignored(METADATA) && LoadsBack(from, to)
    ensures Accepts(to, archive) <==>
            && Readable(from.hashing, d)
            && (exists text :: Lookup(d, "multichain.conf") == Some(File(text)) && to.hasPassword(text) == Some(true))
            && from.organisation == to.organisation
            && SameMajor(from.version, to.version)
  {
    var chainName, timestamp :|
      Written(d, archive, METADATA,
              from.render(Metadata(chainName, from.organisation, timestamp, HashText(from, d), from.version)));
    var m := Metadata(chainName, from.organisation, timestamp, HashText(from, d), from.version);
    DigestSurvivesMetadata(to.hashing, d, archive, from.render(m));
    assert to.parse(from.render(m)).Some?;
    LookupWithout(d, CONF, METADATA);
    LookupWithout(archive, CONF, METADATA);
    assert Lookup(Without(archive, METADATA), CONF) == Lookup(d, CONF);
    PermitsIff(to, to.parse(from.render(m)).value, Without(archive, METADATA));
  }

  /** An accepted archive that carries the hash of some directory has that directory's contents. */
  lemma AcceptedArchiveAgrees(s: Site, archive: Directory, d: Directory, m: Metadata)
    requires s.hashing.ignored(METADATA) && LoadsBack(s, s)
    requires Accepts(s, archive) && Lookup(archive, METADATA) == Some(File(s.render(m)))
    requires DirDigest(s.hashing, d) == Ok(m.directoryHash)
    requires FixedLength(s.hashing.sha)
    requires NoCollision(s.hashing.sha, TextsHashed(s.hashing, d) + TextsHashed(s.hashing, archive))
    ensures Alike(s.hashing, archive, d)
    ensures NothingSpelled(s.hashing, archive, d) ==> SameContents(s.hashing, archive, d)
  {
    WithoutIgnoredName(s.hashing, archive, METADATA);
    assert s.parse(s.render(m)).Some?;
    EqualDigestsIff(s.hashing, archive, d);
  }

  lemma {:induction false} GlobbedAll(d: Directory)
    requires forall e :: e in d ==> !Hidden(e)
    ensures Globbed(d) == d
  {
    if d != [] {
      GlobbedAll(d[1..]);
    }
  }

  /**
    A backup, once accepted and moved into place, gives back the directory exactly when nothing at its top is hidden.
  */
  lemma RestoreRoundTrip(s: Site, d: Directory, archive: Directory)
    requires BackupOf(s, d, archive)
    ensures Globbed(Without(archive, METADATA)) == Without(d, METADATA) <==> forall e :: e in d ==> !Hidden(e)
  {
    var plain := Without(d, METADATA);
    assert Without(archive, METADATA) == plain;
    if forall e :: e in d ==> !Hidden(e) {
      forall e | e in plain
        ensures !Hidden(e)
      {
        WithoutMembers(d, METADATA, e);
      }
      GlobbedAll(plain);
    } else {
      var e :| e in d && Hidden(e);
      WithoutMembers(d, METADATA, e);
      GlobbedMembers(plain, e);
    }
  }
}
