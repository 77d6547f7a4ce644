/**
  The directory digest behind backups (blockchain/src/sha256.js).

  A directory is its list of entries in the order readdir reports them.  SHA-256 is a parameter: nothing is
  assumed of it but, where a lemma says so, its output length and the absence of collisions among the inputs
  that were actually hashed.
*/
module DirectoryHash {
  import opened Prelude

  /** One char stands for one byte; a digest is its hex text. */
  type Bytes = string

  const DIGEST_LENGTH := 64

  /** The hash function and the ignore rule for the last component of a path. */
  datatype Hashing = Hashing(sha: Bytes -> Bytes, ignored: string -> bool)

  /** `Special` is neither file nor directory (a socket, say); `Unreadable` makes stat, readdir or read fail. */
  datatype Node = File(content: Bytes) | Dir(entries: seq<Entry>) | Special | Unreadable
  datatype Entry = Entry(name: string, node: Node)

  datatype ReadError = ReadError

  // ---------------------------------------------------------------- what is hashed

  /** What is left of a directory once ignored and special entries and all names are gone. */
  datatype Tree = Leaf(content: Bytes) | Branch(children: seq<Tree>)

  /** Stat and read succeed on everything that is not ignored. */
  predicate Readable(h: Hashing, es: seq<Entry>)
    decreases es, 0
  {
    es == [] || (EntryReadable(h, es[0]) && Readable(h, es[1..]))
  }

  predicate EntryReadable(h: Hashing, e: Entry)
    decreases e
  {
    h.ignored(e.name) || (e.node != Unreadable && (e.node.Dir? ==> Readable(h, e.node.entries)))
  }

  function Trees(h: Hashing, es: seq<Entry>): seq<Tree>
    decreases es, 0
  {
    if es == [] then [] else TreeOf(h, es[0]) + Trees(h, es[1..])
  }

  /** At most one tree: none for an entry the digest skips. */
  function TreeOf(h: Hashing, e: Entry): seq<Tree>
    decreases e
  {
    if h.ignored(e.name) then [] else
      match e.node
      case File(c) => [Leaf(c)]
      case Dir(sub) => [Branch(Trees(h, sub))]
      case Special => []
      case Unreadable => []
  }

  function Digests(sha: Bytes -> Bytes, ts: seq<Tree>): (ds: seq<Bytes>)
    ensures |ds| == |ts|
    ensures forall i :: 0 <= i < |ts| ==> ds[i] == TreeDigest(sha, ts[i])
  {
    if ts == [] then [] else [TreeDigest(sha, ts[0])] + Digests(sha, ts[1..])
  }

  /** The text whose hash is the digest of the tree. */
  function Preimage(sha: Bytes -> Bytes, t: Tree): Bytes
    decreases t, 0
  {
    match t
    case Leaf(c) => c
    case Branch(ts) => Flatten(Digests(sha, ts))
  }

  function TreeDigest(sha: Bytes -> Bytes, t: Tree): Bytes
    decreases t, 1
  {
    sha(Preimage(sha, t))
  }

  function DirDigest(h: Hashing, es: seq<Entry>): Result<Bytes, ReadError> {
    if Readable(h, es) then Ok(TreeDigest(h.sha, Branch(Trees(h, es)))) else Err(ReadError)
  }

  // ---------------------------------------------------------------- the algorithm

  /** The hash object of node's crypto module. */
  class HashObject {
    var fed: Bytes

    constructor ()
      ensures fed == []
    {
      fed := [];
    }

    method Update(part: Bytes)
      modifies this
      ensures fed == old(fed) + part
    {
      fed := fed + part;
    }

    method Digest(sha: Bytes -> Bytes) returns (d: Bytes)
      ensures d == sha(fed)
    {
      d := sha(fed);
    }
  }

  function Present(hashes: seq<Option<Bytes>>): seq<Bytes> {
    if hashes == [] then [] else AsSeq(hashes[0]) + Present(hashes[1..])
  }

  function AsSeq(hash: Option<Bytes>): seq<Bytes> {
    if hash.Some? then [hash.value] else []
  }

  lemma {:induction false} PresentAppend(a: seq<Option<Bytes>>, b: seq<Option<Bytes>>)
    ensures Present(a + b) == Present(a) + Present(b)
  {
    if a == [] {
      assert a + b == b;
    } else {
      PresentAppend(a[1..], b);
      assert (a + b)[1..] == a[1..] + b;
      ConcatAssoc(AsSeq(a[0]), Present(a[1..]), Present(b));
    }
  }

  /** The callback `done`: feeds the children's digests, skipping the null ones. */
  method Done(h: Hashing, hashes: seq<Option<Bytes>>) returns (d: Bytes)
    ensures d == h.sha(Flatten(Present(hashes)))
  {
    var hash := new HashObject();
    for i := 0 to |hashes|
      invariant hash.fed == Flatten(Present(hashes[..i]))
    {
      assert hashes[..i + 1] == hashes[..i] + [hashes[i]];
      PresentAppend(hashes[..i], [hashes[i]]);
      assert Present([hashes[i]]) == AsSeq(hashes[i]);
      if hashes[i].Some? {
        FlattenSnoc(Present(hashes[..i]), hashes[i].value);
        hash.Update(hashes[i].value);
      } else {
        assert Present(hashes[..i + 1]) == Present(hashes[..i]);
      }
    }
    assert hashes[..|hashes|] == hashes;
    d := hash.Digest(h.sha);
  }

  /** `run` on the directory with these entries, with the callback `iterator` inlined as a call. */
  method Run(h: Hashing, es: seq<Entry>) returns (r: Result<Bytes, ReadError>)
    ensures r == DirDigest(h, es)
    decreases es, 0
  {
    var hashes: seq<Option<Bytes>> := [];
    for i := 0 to |es|
      invariant Collected(h, es[..i], hashes)
    {
      var one := Iterator(h, es[i]);
      if one.Err? {
        UnreadableAt(h, es, i);
        return Err(ReadError);
      }
      CollectedNext(h, es, i, hashes, one.value);
      hashes := hashes + [one.value];
    }
    var d := Done(h, hashes);
    CollectedAll(h, es, hashes);
    r := Ok(d);
  }

  method Iterator(h: Hashing, e: Entry) returns (r: Result<Option<Bytes>, ReadError>)
    ensures r.Ok? <==> EntryReadable(h, e)
    ensures r.Ok? ==> AsSeq(r.value) == Digests(h.sha, TreeOf(h, e))
    ensures h.ignored(e.name) || e.node.Special? ==> r == Ok(None)
    ensures !h.ignored(e.name) && e.node.File? ==> r == Ok(Some(h.sha(e.node.content)))
    ensures !h.ignored(e.name) && e.node.Dir? ==>
              match DirDigest(h, e.node.entries)
              case Ok(d) => r == Ok(Some(d))
              case Err(_) => r == Err(ReadError)
    ensures !h.ignored(e.name) && e.node.Unreadable? ==> r == Err(ReadError)
    decreases e
  {
    if h.ignored(e.name) {
      return Ok(None);
    }
    match e.node
    case File(c) =>
      assert TreeDigest(h.sha, Leaf(c)) == h.sha(c);
      r := Ok(Some(h.sha(c)));
    case Dir(sub) =>
      var d := Run(h, sub);
      r := if d.Ok? then Ok(Some(d.value)) else Err(ReadError);
    case Special => r := Ok(None);
    case Unreadable => r := Err(ReadError);
  }

  lemma BranchDigest(sha: Bytes -> Bytes, ts: seq<Tree>)
    ensures TreeDigest(sha, Branch(ts)) == sha(Flatten(Digests(sha, ts)))
  {
  }

  /** The hashes collected for the entries so far are the digests of the trees so far. */
  ghost predicate Collected(h: Hashing, es: seq<Entry>, hashes: seq<Option<Bytes>>) {
    Readable(h, es) && Present(hashes) == Digests(h.sha, Trees(h, es))
  }

  lemma CollectedNext(h: Hashing, es: seq<Entry>, i: nat, hashes: seq<Option<Bytes>>, one: Option<Bytes>)
    requires i < |es| && Collected(h, es[..i], hashes)
    requires EntryReadable(h, es[i]) && AsSeq(one) == Digests(h.sha, TreeOf(h, es[i]))
    ensures Collected(h, es[..i + 1], hashes + [one])
  {
    var before, e := es[..i], es[i];
    assert es[..i + 1] == before + [e];
    TreesSingle(h, e);
    ReadableAppend(h, before, [e]);
    TreesAppend(h, before, [e]);
    DigestsAppend(h.sha, Trees(h, before), TreeOf(h, e));
    PresentAppend(hashes, [one]);
    assert Present([one]) == AsSeq(one);
  }

  lemma CollectedAll(h: Hashing, es: seq<Entry>, hashes: seq<Option<Bytes>>)
    requires Collected(h, es[..|es|], hashes)
    ensures DirDigest(h, es) == Ok(h.sha(Flatten(Present(hashes))))
  {
    assert es[..|es|] == es;
    BranchDigest(h.sha, Trees(h, es));
  }

  lemma {:induction false} UnreadableAt(h: Hashing, es: seq<Entry>, i: nat)
    requires i < |es| && !EntryReadable(h, es[i])
    ensures !Readable(h, es)
  {
    if i > 0 {
      UnreadableAt(h, es[1..], i - 1);
    }
  }

  lemma DigestsAppend(sha: Bytes -> Bytes, a: seq<Tree>, b: seq<Tree>)
    ensures Digests(sha, a + b) == Digests(sha, a) + Digests(sha, b)
  {
  }

  // ---------------------------------------------------------------- ignored entries do not count

  /** The directory with every ignored entry removed, at any depth. */
  function WithoutIgnored(h: Hashing, es: seq<Entry>): seq<Entry>
    decreases es, 0
  {
    if es == [] then [] else Kept(h, es[0]) + WithoutIgnored(h, es[1..])
  }

  function Kept(h: Hashing, e: Entry): seq<Entry>
    decreases e
  {
    if h.ignored(e.name) then [] else
      match e.node
      case Dir(sub) => [Entry(e.name, Dir(WithoutIgnored(h, sub)))]
      case _ => [e]
  }

  lemma {:induction false} TreesAppend(h: Hashing, a: seq<Entry>, b: seq<Entry>)
    ensures Trees(h, a + b) == Trees(h, a) + Trees(h, b)
  {
    if a == [] {
      assert a + b == b;
    } else {
      TreesAppend(h, a[1..], b);
      assert (a + b)[1..] == a[1..] + b;
      ConcatAssoc(TreeOf(h, a[0]), Trees(h, a[1..]), Trees(h, b));
    }
  }

  lemma {:induction false} ReadableAppend(h: Hashing, a: seq<Entry>, b: seq<Entry>)
    ensures Readable(h, a + b) <==> Readable(h, a) && Readable(h, b)
  {
    if a == [] {
      assert a + b == b;
    } else {
      ReadableAppend(h, a[1..], b);
      assert (a + b)[1..] == a[1..] + b;
    }
  }

  lemma {:induction false} IgnoredDoNotCount(h: Hashing, es: seq<Entry>)
    ensures Trees(h, WithoutIgnored(h, es)) == Trees(h, es)
    ensures Readable(h, WithoutIgnored(h, es)) == Readable(h, es)
    decreases es, 0
  {
    if es != [] {
      IgnoredDoNotCount(h, es[1..]);
      KeptCounts(h, es[0]);
      TreesAppend(h, Kept(h, es[0]), WithoutIgnored(h, es[1..]));
      ReadableAppend(h, Kept(h, es[0]), WithoutIgnored(h, es[1..]));
    }
  }

  lemma {:induction false} KeptCounts(h: Hashing, e: Entry)
    ensures Trees(h, Kept(h, e)) == TreeOf(h, e)
    ensures Readable(h, Kept(h, e)) == EntryReadable(h, e)
    decreases e
  {
    if e.node.Dir? {
      IgnoredDoNotCount(h, e.node.entries);
    }
    TreesSingle(h, e);
    if Kept(h, e) != [] {
      TreesSingle(h, Kept(h, e)[0]);
      assert Kept(h, e) == [Kept(h, e)[0]];
    }
  }

  lemma TreesSingle(h: Hashing, e: Entry)
    ensures Trees(h, [e]) == TreeOf(h, e)
    ensures Readable(h, [e]) == EntryReadable(h, e)
  {
    assert [e][1..] == [];
  }

  /** Directories that differ only in ignored entries, at any depth, have the same digest. */
  lemma DigestIgnoresIgnored(h: Hashing, a: seq<Entry>, b: seq<Entry>)
    requires WithoutIgnored(h, a) == WithoutIgnored(h, b)
    ensures DirDigest(h, a) == DirDigest(h, b)
  {
    IgnoredDoNotCount(h, a);
    IgnoredDoNotCount(h, b);
  }

  // ---------------------------------------------------------------- what equal digests mean

  ghost predicate FixedLength(sha: Bytes -> Bytes) {
    forall text :: |sha(text)| == DIGEST_LENGTH
  }

  /** Every text that is hashed on the way to the digest of t. */
  function Inputs(sha: Bytes -> Bytes, t: Tree): set<Bytes> {
    {Preimage(sha, t)} +
    if t.Leaf? then {} else (set c, x | c in t.children && x in Inputs(sha, c) :: x)
  }

  ghost predicate NoCollision(sha: Bytes -> Bytes, texts: set<Bytes>) {
    forall x, y :: x in texts && y in texts && sha(x) == sha(y) ==> x == y
  }

  /**
    Equality of trees, up to the one confusion the scheme allows: a file whose text is exactly what a directory
    feeds to the hash object.
  */
  predicate Agree(sha: Bytes -> Bytes, a: Tree, b: Tree) {
    match (a, b)
    case (Leaf(c), Leaf(d)) => c == d
    case (Branch(s), Branch(t)) => |s| == |t| && forall i :: 0 <= i < |s| ==> Agree(sha, s[i], t[i])
    case (Leaf(c), Branch(_)) => c == Preimage(sha, b)
    case (Branch(_), Leaf(d)) => d == Preimage(sha, a)
  }

  ghost predicate DigestSized(ds: seq<Bytes>) {
    forall i :: 0 <= i < |ds| ==> |ds[i]| == DIGEST_LENGTH
  }

  lemma {:induction false} FlattenLength(ds: seq<Bytes>)
    requires DigestSized(ds)
    ensures |Flatten(ds)| == DIGEST_LENGTH * |ds|
  {
    if ds != [] {
      FlattenLength(ds[1..]);
    }
  }

  lemma {:induction false} FlattenInjective(a: seq<Bytes>, b: seq<Bytes>)
    requires DigestSized(a) && DigestSized(b) && Flatten(a) == Flatten(b)
    ensures a == b
  {
    FlattenLength(a);
    FlattenLength(b);
    if a != [] {
      var s := Flatten(a);
      assert a[0] == s[..DIGEST_LENGTH] == b[0];
      assert Flatten(a[1..]) == s[DIGEST_LENGTH..] == Flatten(b[1..]);
      FlattenInjective(a[1..], b[1..]);
    }
  }

  /** Trees that agree have equal digests, whatever the hash function. */
  lemma {:induction false} AgreeingTreesHashAlike(sha: Bytes -> Bytes, a: Tree, b: Tree)
    requires Agree(sha, a, b)
    ensures Preimage(sha, a) == Preimage(sha, b)
    ensures TreeDigest(sha, a) == TreeDigest(sha, b)
  {
    if a.Branch? && b.Branch? {
      forall i | 0 <= i < |a.children|
        ensures TreeDigest(sha, a.children[i]) == TreeDigest(sha, b.children[i])
      {
        AgreeingTreesHashAlike(sha, a.children[i], b.children[i]);
      }
      assert Digests(sha, a.children) == Digests(sha, b.children);
    }
  }

  /** Without collisions among the texts hashed, equal digests mean that the trees agree. */
  lemma {:induction false} EqualDigestsAgree(sha: Bytes -> Bytes, a: Tree, b: Tree)
    requires FixedLength(sha) && NoCollision(sha, Inputs(sha, a) + Inputs(sha, b))
    ensures TreeDigest(sha, a) == TreeDigest(sha, b) <==> Agree(sha, a, b)
  {
    if Agree(sha, a, b) {
      AgreeingTreesHashAlike(sha, a, b);
    }
    if TreeDigest(sha, a) == TreeDigest(sha, b) && a.Branch? && b.Branch? {
      var s, t := a.children, b.children;
      assert Preimage(sha, a) == Preimage(sha, b);
      FlattenInjective(Digests(sha, s), Digests(sha, t));
      forall i | 0 <= i < |s|
        ensures Agree(sha, s[i], t[i])
      {
        assert Digests(sha, s)[i] == Digests(sha, t)[i];
        assert Inputs(sha, s[i]) <= Inputs(sha, a) && Inputs(sha, t[i]) <= Inputs(sha, b);
        EqualDigestsAgree(sha, s[i], t[i]);
      }
    }
  }

  /** The texts of all files, and the texts fed to the hash object for all directories. */
  function Files(t: Tree): set<Bytes> {
    if t.Leaf? then {t.content} else set c, x | c in t.children && x in Files(c) :: x
  }

  function Feeds(sha: Bytes -> Bytes, t: Tree): set<Bytes> {
    if t.Leaf? then {} else {Preimage(sha, t)} + set c, x | c in t.children && x in Feeds(sha, c) :: x
  }

  /** Agreement is equality as soon as no file of either tree spells out a directory of the other. */
  lemma {:induction false} AgreeIsEquality(sha: Bytes -> Bytes, a: Tree, b: Tree)
    requires Files(a) !! Feeds(sha, b) && Files(b) !! Feeds(sha, a)
    ensures Agree(sha, a, b) <==> a == b
  {
    if a.Branch? && b.Branch? && |a.children| == |b.children| {
      forall i | 0 <= i < |a.children|
        ensures Agree(sha, a.children[i], b.children[i]) <==> a.children[i] == b.children[i]
      {
        var s, t := a.children[i], b.children[i];
        assert Files(s) <= Files(a) && Files(t) <= Files(b);
        assert Feeds(sha, s) <= Feeds(sha, a) && Feeds(sha, t) <= Feeds(sha, b);
        AgreeIsEquality(sha, s, t);
      }
    }
  }

  /** The confusion is real: a file can stand in for a directory without changing the digest. */
  lemma FileCanPassForDirectory(sha: Bytes -> Bytes, ts: seq<Tree>)
    ensures Leaf(Preimage(sha, Branch(ts))) != Branch(ts)
    ensures TreeDigest(sha, Leaf(Preimage(sha, Branch(ts)))) == TreeDigest(sha, Branch(ts))
  {
    AgreeingTreesHashAlike(sha, Leaf(Preimage(sha, Branch(ts))), Branch(ts));
  }

  // ---------------------------------------------------------------- what equal digests mean for directories

  /** The entries that count: files and directories that are not ignored. */
  function Counted(h: Hashing, es: seq<Entry>): (r: seq<Entry>)
    ensures forall e :: e in r ==> e in es && !h.ignored(e.name) && (e.node.File? || e.node.Dir?)
  {
    if es == [] then []
    else if h.ignored(es[0].name) || !(es[0].node.File? || es[0].node.Dir?) then Counted(h, es[1..])
    else [es[0]] + Counted(h, es[1..])
  }

  /** In their order. */
  lemma {:induction false} CountedFilters(h: Hashing, es: seq<Entry>, p: Entry -> bool)
    requires forall e :: p(e) <==> !h.ignored(e.name) && (e.node.File? || e.node.Dir?)
    ensures Counted(h, es) == Filter(es, p)
  {
    if es != [] {
      CountedFilters(h, es[1..], p);
    }
  }

  /** The same files and directories in the same order, whatever they are called. */
  ghost predicate SameContents(h: Hashing, a: seq<Entry>, b: seq<Entry>)
    decreases a
  {
    var s, t := Counted(h, a), Counted(h, b);
    |s| == |t| && forall i :: 0 <= i < |s| ==> SameNode(h, s[i].node, t[i].node)
  }

  ghost predicate SameNode(h: Hashing, a: Node, b: Node)
    decreases a
  {
    match (a, b)
    case (File(c), File(d)) => c == d
    case (Dir(s), Dir(t)) => SameContents(h, s, t)
    case _ => false
  }

  /** The same, but that a file may stand for a directory whose digest it has. */
  ghost predicate Alike(h: Hashing, a: seq<Entry>, b: seq<Entry>)
    decreases a
  {
    var s, t := Counted(h, a), Counted(h, b);
    |s| == |t| && forall i :: 0 <= i < |s| ==> AlikeNode(h, s[i].node, t[i].node)
  }

  ghost predicate AlikeNode(h: Hashing, a: Node, b: Node)
    decreases a
  {
    match (a, b)
    case (File(c), File(d)) => c == d
    case (Dir(s), Dir(t)) => Alike(h, s, t)
    case (File(c), Dir(t)) => DirDigest(h, t) == Ok(h.sha(c))
    case (Dir(s), File(d)) => DirDigest(h, s) == Ok(h.sha(d))
    case _ => false
  }

  function NodeTree(h: Hashing, n: Node): Tree
    requires n.File? || n.Dir?
  {
    match n
    case File(c) => Leaf(c)
    case Dir(sub) => Branch(Trees(h, sub))
  }

  predicate AllCount(es: seq<Entry>) {
    forall e :: e in es ==> e.node.File? || e.node.Dir?
  }

  function NodeTrees(h: Hashing, es: seq<Entry>): (r: seq<Tree>)
    requires AllCount(es)
    ensures |r| == |es| && forall i :: 0 <= i < |es| ==> r[i] == NodeTree(h, es[i].node)
  {
    seq(|es|, i requires 0 <= i < |es| => NodeTree(h, es[i].node))
  }

  lemma NodeTreesCons(h: Hashing, e: Entry, rest: seq<Entry>)
    requires AllCount([e] + rest)
    ensures AllCount(rest) && NodeTrees(h, [e] + rest) == [NodeTree(h, e.node)] + NodeTrees(h, rest)
  {
    forall x | x in rest
      ensures x.node.File? || x.node.Dir?
    {
      assert x in [e] + rest;
    }
    assert ([e] + rest)[0] == e;
  }

  lemma {:induction false} TreesOfCounted(h: Hashing, es: seq<Entry>)
    ensures Trees(h, es) == NodeTrees(h, Counted(h, es))
  {
    if es != [] {
      var e, rest := es[0], es[1..];
      TreesOfCounted(h, rest);
      if h.ignored(e.name) || !(e.node.File? || e.node.Dir?) {
        assert TreeOf(h, e) == [];
      } else {
        assert TreeOf(h, e) == [NodeTree(h, e.node)];
        NodeTreesCons(h, e, Counted(h, rest));
      }
    }
  }

  /** The trees that are hashed are those of the entries that count. */
  lemma TreesCounted(h: Hashing, es: seq<Entry>)
    ensures |Trees(h, es)| == |Counted(h, es)|
    ensures forall i :: 0 <= i < |Counted(h, es)| ==> Trees(h, es)[i] == NodeTree(h, Counted(h, es)[i].node)
  {
    TreesOfCounted(h, es);
  }

  lemma {:induction false} CountedReadable(h: Hashing, es: seq<Entry>, e: Entry)
    requires Readable(h, es) && e in Counted(h, es) && e.node.Dir?
    ensures Readable(h, e.node.entries)
  {
    if e != es[0] {
      CountedReadable(h, es[1..], e);
    }
  }

  /** The contents are the same exactly if the trees are. */
  lemma {:induction false} SameTrees(h: Hashing, a: seq<Entry>, b: seq<Entry>)
    ensures SameContents(h, a, b) <==> Trees(h, a) == Trees(h, b)
    decreases a
  {
    var s, t := Counted(h, a), Counted(h, b);
    TreesCounted(h, a);
    TreesCounted(h, b);
    if |s| == |t| {
      forall i | 0 <= i < |s|
        ensures SameNode(h, s[i].node, t[i].node) <==> Trees(h, a)[i] == Trees(h, b)[i]
      {
        assert s[i] in s && s[i] in a;
        if s[i].node.Dir? && t[i].node.Dir? {
          SameTrees(h, s[i].node.entries, t[i].node.entries);
        }
      }
    }
  }

  /** Every text that is hashed on the way to the digest of the directory. */
  function TextsHashed(h: Hashing, es: seq<Entry>): set<Bytes> {
    Inputs(h.sha, Branch(Trees(h, es)))
  }

  lemma ChildTexts(h: Hashing, es: seq<Entry>, i: nat)
    requires Readable(h, es) && i < |Counted(h, es)|
    ensures NodeReadable(h, Counted(h, es)[i].node)
    ensures Inputs(h.sha, NodeTree(h, Counted(h, es)[i].node)) <= TextsHashed(h, es)
  {
    TreesCounted(h, es);
    assert Counted(h, es)[i] in Counted(h, es);
    assert Trees(h, es)[i] in Branch(Trees(h, es)).children;
    if Counted(h, es)[i].node.Dir? {
      CountedReadable(h, es, Counted(h, es)[i]);
    }
  }

  predicate NodeReadable(h: Hashing, n: Node) {
    n.File? || (n.Dir? && Readable(h, n.entries))
  }

  /** Without collisions, two directories are alike exactly if their trees agree. */
  lemma {:induction false} AlikeAgree(h: Hashing, a: seq<Entry>, b: seq<Entry>)
    requires Readable(h, a) && Readable(h, b)
    requires NoCollision(h.sha, TextsHashed(h, a) + TextsHashed(h, b))
    ensures Alike(h, a, b) <==> Agree(h.sha, Branch(Trees(h, a)), Branch(Trees(h, b)))
    decreases a
  {
    var s, t := Counted(h, a), Counted(h, b);
    TreesCounted(h, a);
    TreesCounted(h, b);
    if |s| == |t| {
      forall i | 0 <= i < |s|
        ensures AlikeNode(h, s[i].node, t[i].node) <==> Agree(h.sha, Trees(h, a)[i], Trees(h, b)[i])
      {
        assert s[i] in s;
        ChildTexts(h, a, i);
        ChildTexts(h, b, i);
        AlikeAgreeNode(h, s[i].node, t[i].node);
      }
    }
  }

  lemma {:induction false} AlikeAgreeNode(h: Hashing, a: Node, b: Node)
    requires NodeReadable(h, a) && NodeReadable(h, b)
    requires NoCollision(h.sha, Inputs(h.sha, NodeTree(h, a)) + Inputs(h.sha, NodeTree(h, b)))
    ensures AlikeNode(h, a, b) <==> Agree(h.sha, NodeTree(h, a), NodeTree(h, b))
    decreases a
  {
    assert Preimage(h.sha, NodeTree(h, a)) in Inputs(h.sha, NodeTree(h, a));
    assert Preimage(h.sha, NodeTree(h, b)) in Inputs(h.sha, NodeTree(h, b));
    if a.Dir? {
      assert DirDigest(h, a.entries) == Ok(h.sha(Preimage(h.sha, NodeTree(h, a))));
    }
    if b.Dir? {
      assert DirDigest(h, b.entries) == Ok(h.sha(Preimage(h.sha, NodeTree(h, b))));
    }
    if a.Dir? && b.Dir? {
      AlikeAgree(h, a.entries, b.entries);
    }
  }

  /** No file of the one directory spells out what a directory inside the other feeds to the hash object. */
  ghost predicate NothingSpelled(h: Hashing, a: seq<Entry>, b: seq<Entry>) {
    && Files(Branch(Trees(h, a))) !! Feeds(h.sha, Branch(Trees(h, b)))
    && Files(Branch(Trees(h, b))) !! Feeds(h.sha, Branch(Trees(h, a)))
  }

  /** What the digest tells: that two directories are alike and, if nothing is spelled out, of the same contents. */
  lemma EqualDigestsIff(h: Hashing, a: seq<Entry>, b: seq<Entry>)
    requires Readable(h, a) && Readable(h, b) && FixedLength(h.sha)
    requires NoCollision(h.sha, TextsHashed(h, a) + TextsHashed(h, b))
    ensures DirDigest(h, a) == DirDigest(h, b) <==> Alike(h, a, b)
    ensures NothingSpelled(h, a, b) ==> (DirDigest(h, a) == DirDigest(h, b) <==> SameContents(h, a, b))
  {
    var s, t := Branch(Trees(h, a)), Branch(Trees(h, b));
    EqualDigestsAgree(h.sha, s, t);
    AlikeAgree(h, a, b);
    if NothingSpelled(h, a, b) {
      AgreeIsEquality(h.sha, s, t);
      SameTrees(h, a, b);
    }
  }

  /** The digest of a directory is the hash of the digests of its files and directories, one after the other. */
  lemma DigestIs(h: Hashing, es: seq<Entry>, ds: seq<Bytes>)
    requires Readable(h, es) && |ds| == |Counted(h, es)|
    requires forall i :: 0 <= i < |ds| && Counted(h, es)[i].node.File? ==>
               ds[i] == h.sha(Counted(h, es)[i].node.content)
    requires forall i :: 0 <= i < |ds| && Counted(h, es)[i].node.Dir? ==>
               DirDigest(h, Counted(h, es)[i].node.entries) == Ok(ds[i])
    ensures DirDigest(h, es) == Ok(h.sha(Flatten(ds)))
  {
    TreesCounted(h, es);
    forall i | 0 <= i < |ds|
      ensures ds[i] == TreeDigest(h.sha, Trees(h, es)[i])
    {
      assert Counted(h, es)[i] in Counted(h, es);
    }
    assert Digests(h.sha, Trees(h, es)) == ds;
    BranchDigest(h.sha, Trees(h, es));
  }

  /** The entry is in the directory or, at any depth, in one inside it, and nothing on the way is ignored. */
  ghost predicate Reached(h: Hashing, es: seq<Entry>, e: Entry)
    decreases es
  {
    exists x :: x in es && !h.ignored(x.name) && (x == e || (x.node.Dir? && Reached(h, x.node.entries, e)))
  }

  /** A directory can be read exactly if nothing reached in it is unreadable. */
  lemma {:induction false} ReadableIff(h: Hashing, es: seq<Entry>)
    ensures Readable(h, es) <==> forall e :: Reached(h, es, e) ==> e.node != Unreadable
    decreases es
  {
    ReadableAll(h, es);
    forall x | x in es && !h.ignored(x.name) && x.node.Dir?
      ensures Readable(h, x.node.entries) <==> forall e :: Reached(h, x.node.entries, e) ==> e.node != Unreadable
      ensures forall e :: Reached(h, x.node.entries, e) ==> Reached(h, es, e)
    {
      ReadableIff(h, x.node.entries);
    }
    if !Readable(h, es) {
      var x :| x in es && !EntryReadable(h, x);
      if x.node == Unreadable {
        assert Reached(h, es, x);
      }
    }
  }

  lemma {:induction false} ReadableAll(h: Hashing, es: seq<Entry>)
    ensures Readable(h, es) <==> forall e :: e in es ==> EntryReadable(h, e)
  {
    if !Readable(h, es) {
      if EntryReadable(h, es[0]) {
        ReadableAll(h, es[1..]);
        var e :| e in es[1..] && !EntryReadable(h, e);
        assert e in es;
      } else {
        assert es[0] in es;
      }
    } else {
      forall i | 0 <= i < |es|
        ensures EntryReadable(h, es[i])
      {
        if !EntryReadable(h, es[i]) {
          UnreadableAt(h, es, i);
        }
      }
    }
  }
}
