/**
  Copying the streams of one chain to another (migration/src/migrate.ts, assert.ts, rpc.ts and
  helper/migrationHelper.ts), with the default mover for every stream.

  A chain is a faithful append-only log: publishing either fails or appends one item under a fresh transaction id.
  A large item is stored out of line; what is listed for it is a pointer to a transaction output.
*/
module Migration {
  import opened Prelude
  import opened Difference

  datatype Item = Item(txid: string, keys: seq<string>, data: Option<Json>)

  type Output = (Json, Json)

  /** The chain that is read: its streams in listing order, the keys each stream lists, and transaction outputs. */
  datatype Source = Source(
    names: seq<string>,
    items: map<string, seq<Item>>,
    keys: map<string, seq<string>>,
    outputs: map<Output, Json>)

  datatype Failure = RpcFailed | AssertionFailed | TypeFailed

  datatype Migrated = Migrated(sourceTx: string, destinationTx: string)

  const VOUT := Name("vout")
  const TXID := Name("txid")
  const JSON := Name("json")
  const DATA := Name("data")

  predicate IsPointer(data: Option<Json>) {
    data.Some? && VOUT in Fields(data.value) && TXID in Fields(data.value)
  }

  function OutputOf(data: Json): Output
    requires IsPointer(Some(data))
  {
    (Fields(data)[TXID], Fields(data)[VOUT])
  }

  function Property(j: Json, k: Key): Option<Json> {
    if k in Fields(j) then Some(Fields(j)[k]) else None
  }

  /** What publishing puts on the chain: only the json property of the item's data, or nothing. */
  function Payload(data: Json): Json {
    Node(false, if JSON in Fields(data) then map[JSON := Fields(data)[JSON]] else map[])
  }

  /** What an item's data stands for: itself, or the output it points to. */
  function Content(outputs: map<Output, Json>, data: Option<Json>): Option<Json> {
    if !IsPointer(data) then data
    else if OutputOf(data.value) in outputs then Some(outputs[OutputOf(data.value)])
    else None
  }

  // ---------------------------------------------------------------- listing

  function WithKey(items: seq<Item>, key: string): seq<Item> {
    if items == [] then [] else (if key in items[0].keys then [items[0]] else []) + WithKey(items[1..], key)
  }

  /** getAllStreamItems: the items of each key in turn. */
  function Listing(items: seq<Item>, keys: seq<string>): seq<Item> {
    if keys == [] then [] else WithKey(items, keys[0]) + Listing(items, keys[1..])
  }

  /** The items that carry the key, in the order of the stream. */
  ghost predicate BlockOf(items: seq<Item>, key: string, block: seq<Item>) {
    exists at :: PickedAt(items, at, block) && forall k :: 0 <= k < |items| ==> (k in at <==> key in items[k].keys)
  }

  /** One block per key, in the order of the keys. */
  ghost predicate Blocks(items: seq<Item>, keys: seq<string>, blocks: seq<seq<Item>>) {
    |blocks| == |keys| && forall i :: 0 <= i < |keys| ==> BlockOf(items, keys[i], blocks[i])
  }

  lemma {:induction false} WithKeyFilters(items: seq<Item>, key: string, p: Item -> bool)
    requires forall it :: p(it) <==> key in it.keys
    ensures WithKey(items, key) == Filter(items, p)
  {
    if items != [] {
      WithKeyFilters(items[1..], key, p);
    }
  }

  lemma WithKeyIsBlock(items: seq<Item>, key: string)
    ensures BlockOf(items, key, WithKey(items, key))
  {
    var p := (it: Item) => key in it.keys;
    WithKeyFilters(items, key, p);
    var at := FilterPicks(items, p);
  }

  /** A stream is listed key by key: for each key the items that carry it, in the order of the stream. */
  lemma {:induction false} ListingIsBlocks(items: seq<Item>, keys: seq<string>) returns (blocks: seq<seq<Item>>)
    ensures Blocks(items, keys, blocks) && Listing(items, keys) == Flatten(blocks)
  {
    blocks := [];
    if keys != [] {
      var rest := ListingIsBlocks(items, keys[1..]);
      WithKeyIsBlock(items, keys[0]);
      blocks := [WithKey(items, keys[0])] + rest;
      assert blocks[1..] == rest;
    }
  }

  function SourceItems(s: Source, name: string): seq<Item> {
    if name in s.items then s.items[name] else []
  }

  function SourceKeys(s: Source, name: string): seq<string> {
    if name in s.keys then s.keys[name] else []
  }

  function Listed(s: Source, name: string): seq<Item> {
    Listing(SourceItems(s, name), SourceKeys(s, name))
  }

  predicate DistinctTx(items: seq<Item>) {
    forall i, j :: 0 <= i < j < |items| ==> items[i].txid != items[j].txid
  }

  function FindTx(items: seq<Item>, txid: string): Option<Item> {
    if items == [] then None else if items[0].txid == txid then Some(items[0]) else FindTx(items[1..], txid)
  }

  // ---------------------------------------------------------------- the destination chain

  function Items(streams: map<string, seq<Item>>, name: string): seq<Item> {
    if name in streams then streams[name] else []
  }

  class Destination {
    var streams: map<string, seq<Item>>
    var outputs: map<Output, Json>
    /** Whether a call to one of the two chains has failed. */
    ghost var failed: bool

    constructor ()
      ensures streams == map[] && outputs == map[] && !failed
    {
      streams, outputs, failed := map[], map[], false;
    }

    method Call() returns (online: bool)
      modifies this`failed
      ensures failed == (old(failed) || !online)
    {
      online := *;
      failed := failed || !online;
    }

    /** Appends an item that holds the payload, in line or out of line; or fails and changes nothing. */
    method Publish(name: string, keys: seq<string>, payload: Json) returns (r: Result<string, Failure>)
      requires !IsPointer(Some(payload))
      modifies this
      ensures r.Err? ==> streams == old(streams) && outputs == old(outputs)
      ensures r.Err? ==> failed || name !in old(streams)
      ensures old(failed) ==> failed
      ensures r.Ok? ==>
              && name in old(streams)
              && (exists data ::
                    && streams == old(streams)[name := old(streams)[name] + [Item(r.value, keys, data)]]
                    && Content(outputs, data) == Some(payload))
              && FindTx(old(streams)[name], r.value) == None && r.value != ""
              && (forall o :: o in old(outputs) ==> o in outputs && outputs[o] == old(outputs)[o])
    {
      var online := Call();
      if !online || name !in streams {
        return Err(RpcFailed);
      }
      var tx: string := *;
      var large: bool := *;
      var output: Output := (Text(tx), Number(0.0));
      if tx == "" || FindTx(streams[name], tx).Some? || output in outputs {
        // A chain gives out no empty id and none twice.
        failed := true;
        return Err(RpcFailed);
      }
      var data := Some(payload);
      if large {
        data := Some(Node(false, map[TXID := output.0, VOUT := output.1]));
        outputs := outputs[output := payload];
      }
      streams := streams[name := streams[name] + [Item(tx, keys, data)]];
      assert Content(outputs, data) == Some(payload);
      r := Ok(tx);
    }

    method CreateStream(name: string) returns (ok: bool)
      modifies this`streams, this`failed
      ensures streams == if ok then old(streams)[name := []] else old(streams)
      ensures ok ==> name !in old(streams)
      ensures !ok ==> failed || name in old(streams)
      ensures old(failed) ==> failed
    {
      ok := Call();
      ok := ok && name !in streams;
      if ok {
        streams := streams[name := []];
      }
    }

    /** createStreamIfNotExists: an error is only logged. */
    method CreateStreamIfNotExists(name: string)
      modifies this`streams, this`failed
      ensures forall n :: Items(streams, n) == Items(old(streams), n)
      ensures failed || name in streams
      ensures old(failed) ==> failed
    {
      var online := Call();
      if online && name !in streams {
        var _ := CreateStream(name);
      }
    }
  }

  method GetAllStreamItems(s: Source, d: Destination, name: string) returns (r: Result<seq<Item>, Failure>)
    modifies d`failed
    ensures r.Ok? ==> r.value == Listed(s, name)
    ensures r.Ok? ==> exists blocks ::
              Blocks(SourceItems(s, name), SourceKeys(s, name), blocks) && r.value == Flatten(blocks)
    ensures d.failed == (old(d.failed) || r.Err?)
  {
    var keys := SourceKeys(s, name);
    var allItems: seq<Item> := [];
    for i := 0 to |keys|
      invariant d.failed == old(d.failed)
      invariant allItems + Listing(SourceItems(s, name), keys[i..]) == Listed(s, name)
    {
      var online := d.Call();
      if !online {
        return Err(RpcFailed);
      }
      allItems := allItems + WithKey(SourceItems(s, name), keys[i]);
    }
    ghost var blocks := ListingIsBlocks(SourceItems(s, name), keys);
    r := Ok(allItems);
  }

  // ---------------------------------------------------------------- the check

  /** What the check looks at: the data, or the data property of the output the data points to. */
  function Seen(outputs: map<Output, Json>, data: Option<Json>): Option<Option<Json>> {
    if !IsPointer(data) then Some(data)
    else if OutputOf(data.value) in outputs then Some(Property(outputs[OutputOf(data.value)], DATA))
    else None
  }

  predicate CheckPasses(source: map<Output, Json>, original: Item, destination: map<Output, Json>, clone: Item) {
    var o, c := Seen(source, original.data), Seen(destination, clone.data);
    o.Some? && c.Some? && Covered(o.value, c.value)
  }

  /** Both items are found, and the check passes on them. */
  predicate ChecksOut(s: Source, streams: map<string, seq<Item>>, outputs: map<Output, Json>, name: string,
                      m: Migrated) {
    var original, clone := FindTx(SourceItems(s, name), m.sourceTx), FindTx(Items(streams, name), m.destinationTx);
    original.Some? && clone.Some? && CheckPasses(s.outputs, original.value, outputs, clone.value)
  }

  /** assertStreamItem. */
  method AssertStreamItem(s: Source, d: Destination, name: string, m: Migrated) returns (r: Result<bool, Failure>)
    modifies d`failed
    ensures r.Ok? ==> ChecksOut(s, d.streams, d.outputs, name, m)
    ensures r.Err? ==> d.failed || !ChecksOut(s, d.streams, d.outputs, name, m)
    ensures old(d.failed) ==> d.failed
  {
    var online := d.Call();
    if !online {
      return Err(RpcFailed);
    }
    var clone := FindTx(Items(d.streams, name), m.destinationTx);
    var original := FindTx(SourceItems(s, name), m.sourceTx);
    if original.None? || clone.None? {
      return Err(AssertionFailed);
    }
    var originalData, cloneData := original.value.data, clone.value.data;
    if IsPointer(originalData) {
      if OutputOf(originalData.value) !in s.outputs {
        return Err(RpcFailed);
      }
      originalData := Property(s.outputs[OutputOf(originalData.value)], DATA);
    }
    if IsPointer(cloneData) {
      if OutputOf(cloneData.value) !in d.outputs {
        return Err(RpcFailed);
      }
      cloneData := Property(d.outputs[OutputOf(cloneData.value)], DATA);
    }
    var diff := Diff(originalData, cloneData);
    EmptyDiffIff(originalData, cloneData);
    if diff.Err? {
      return Err(TypeFailed);
    }
    if diff.value != map[] {
      return Err(AssertionFailed);
    }
    r := Ok(true);
  }

  // ---------------------------------------------------------------- one stream

  ghost predicate Keeps(before: map<Output, Json>, after: map<Output, Json>) {
    forall o :: o in before ==> o in after && after[o] == before[o]
  }

  /** The copies hold the listed items' payloads under the same keys, in the same order. */
  ghost predicate Copied(outputs: map<Output, Json>, listed: seq<Item>, copies: seq<Item>) {
    |copies| == |listed| &&
    forall i :: 0 <= i < |listed| ==> CopyOf(outputs, listed[i], copies[i])
  }

  ghost predicate CopyOf(outputs: map<Output, Json>, item: Item, copy: Item) {
    copy.txid != "" && copy.keys == item.keys && item.data.Some? &&
      Content(outputs, copy.data) == Some(Payload(item.data.value))
  }

  ghost predicate FreshTx(items: seq<Item>, copies: seq<Item>) {
    forall i :: 0 <= i < |copies| ==> FindTx(items + copies[..i], copies[i].txid) == None
  }

  /** The items a stream gained. */
  function Gained(before: map<string, seq<Item>>, after: map<string, seq<Item>>, name: string): seq<Item>
    requires Items(before, name) <= Items(after, name)
  {
    Items(after, name)[|Items(before, name)|..]
  }

  /** Only this stream changed, and all it did was to gain copies of the first listed items. */
  ghost predicate PartlyCopied(s: Source, before: map<string, seq<Item>>, after: map<string, seq<Item>>,
                               outputs: map<Output, Json>, name: string) {
    && Items(before, name) <= Items(after, name)
    && var copies := Gained(before, after, name);
    && |copies| <= |Listed(s, name)|
    && Copied(outputs, Listed(s, name)[..|copies|], copies)
    && FreshTx(Items(before, name), copies)
  }

  ghost predicate Traced(listed: seq<Item>, copies: seq<Item>, result: seq<Migrated>) {
    |result| == |listed| == |copies| &&
    forall i :: 0 <= i < |result| ==> result[i] == Migrated(listed[i].txid, copies[i].txid)
  }

  lemma CopyKept(before: map<Output, Json>, after: map<Output, Json>, listed: seq<Item>, copies: seq<Item>)
    requires Copied(before, listed, copies) && Keeps(before, after)
    ensures Copied(after, listed, copies)
  {
    forall i | 0 <= i < |listed|
      ensures CopyOf(after, listed[i], copies[i])
    {
      assert CopyOf(before, listed[i], copies[i]);
    }
  }

  lemma CopiedNext(outputs: map<Output, Json>, listed: seq<Item>, copies: seq<Item>, copy: Item)
    requires |copies| < |listed| && Copied(outputs, listed[..|copies|], copies)
    requires CopyOf(outputs, listed[|copies|], copy)
    ensures Copied(outputs, listed[..|copies| + 1], copies + [copy])
  {
    var n := |copies|;
    forall i | 0 <= i < n + 1
      ensures CopyOf(outputs, listed[..n + 1][i], (copies + [copy])[i])
    {
      if i < n {
        assert CopyOf(outputs, listed[..n][i], copies[i]);
      }
    }
  }

  lemma FreshNext(items: seq<Item>, copies: seq<Item>, copy: Item)
    requires FreshTx(items, copies) && FindTx(items + copies, copy.txid) == None
    ensures FreshTx(items, copies + [copy])
  {
    forall i | 0 <= i < |copies + [copy]|
      ensures FindTx(items + (copies + [copy])[..i], (copies + [copy])[i].txid) == None
    {
      assert (copies + [copy])[..i] == copies[..i];
      if i == |copies| {
        assert copies[..i] == copies;
      }
    }
  }

  /** One item moved: the stream gained a copy under a fresh transaction id. */
  ghost predicate Moved(before: map<string, seq<Item>>, after: map<string, seq<Item>>, outputs: map<Output, Json>,
                        name: string, item: Item, copy: Item) {
    && name in before
    && after == before[name := before[name] + [copy]]
    && FindTx(before[name], copy.txid) == None
    && CopyOf(outputs, item, copy)
  }

  /** The item's data is there, and so is the output it points to. */
  predicate Movable(s: Source, item: Item) {
    && item.data != None && item.data != Some(Null)
    && (IsPointer(item.data) ==> OutputOf(item.data.value) in s.outputs)
  }

  /** The body of the loop; `itemToMigrate` is fetched but what is published is the listed item. */
  method MoveItem(s: Source, d: Destination, name: string, item: Item) returns (r: Result<Migrated, Failure>)
    modifies d
    ensures r.Err? ==> d.streams == old(d.streams) && d.outputs == old(d.outputs)
    ensures r.Err? ==> d.failed || name !in d.streams || !Movable(s, item)
    ensures old(d.failed) ==> d.failed
    ensures r.Ok? ==>
            && item.data.Some? && item.data.value != Null
            && (IsPointer(item.data) ==> OutputOf(item.data.value) in s.outputs)
    ensures r.Ok? ==>
            && Keeps(old(d.outputs), d.outputs)
            && r.value.sourceTx == item.txid
            && exists copy: Item :: copy.txid == r.value.destinationTx &&
                 Moved(old(d.streams), d.streams, d.outputs, name, item, copy)
  {
    if IsPointer(item.data) && OutputOf(item.data.value) !in s.outputs {
      return Err(RpcFailed);
    }
    if item.data == None || item.data == Some(Null) {
      return Err(TypeFailed);
    }
    var req := d.Publish(name, item.keys, Payload(item.data.value));
    if req.Err? {
      return Err(req.error);
    }
    ghost var copy := d.streams[name][|old(d.streams)[name]|];
    assert Moved(old(d.streams), d.streams, d.outputs, name, item, copy);
    r := Ok(Migrated(item.txid, req.value));
  }

  /** The loop of migrateStream after i items. */
  ghost predicate Progress(before: map<string, seq<Item>>, after: map<string, seq<Item>>, outputs: map<Output, Json>,
                           name: string, listed: seq<Item>, result: seq<Migrated>) {
    && (forall n :: n != name ==> Items(after, n) == Items(before, n))
    && Items(before, name) <= Items(after, name)
    && var copies := Gained(before, after, name);
    && Copied(outputs, listed, copies)
    && FreshTx(Items(before, name), copies)
    && Traced(listed, copies, result)
  }

  lemma ProgressNext(before: map<string, seq<Item>>, mid: map<string, seq<Item>>, after: map<string, seq<Item>>,
                     outputs: map<Output, Json>, more: map<Output, Json>, name: string, listed: seq<Item>, i: nat,
                     result: seq<Migrated>, copy: Item)
    requires i < |listed| && Progress(before, mid, outputs, name, listed[..i], result)
    requires Keeps(outputs, more) && Moved(mid, after, more, name, listed[i], copy)
    ensures Progress(before, after, more, name, listed[..i + 1], result + [Migrated(listed[i].txid, copy.txid)])
  {
    var copies := Gained(before, mid, name);
    assert |copies| == i;
    GainedNext(before, mid, after, name, copy);
    assert Copied(more, listed[..i + 1], copies + [copy]) by {
      CopyKept(outputs, more, listed[..i], copies);
      CopiedNext(more, listed, copies, copy);
    }
    FreshNext(Items(before, name), copies, copy);
    TracedNext(listed, copies, result, copy);
  }

  lemma GainedNext(before: map<string, seq<Item>>, mid: map<string, seq<Item>>, after: map<string, seq<Item>>,
                   name: string, copy: Item)
    requires Items(before, name) <= Items(mid, name)
    requires name in mid && after == mid[name := mid[name] + [copy]]
    ensures Items(before, name) <= Items(after, name)
    ensures Gained(before, after, name) == Gained(before, mid, name) + [copy]
    ensures mid[name] == Items(before, name) + Gained(before, mid, name)
  {
  }

  lemma TracedNext(listed: seq<Item>, copies: seq<Item>, result: seq<Migrated>, copy: Item)
    requires |copies| < |listed| && Traced(listed[..|copies|], copies, result)
    ensures Traced(listed[..|copies| + 1], copies + [copy], result + [Migrated(listed[|copies|].txid, copy.txid)])
  {
  }

  lemma ProgressIsPartCopy(s: Source, before: map<string, seq<Item>>, after: map<string, seq<Item>>,
                           outputs: map<Output, Json>, name: string, i: nat, result: seq<Migrated>)
    requires i <= |Listed(s, name)| && Progress(before, after, outputs, name, Listed(s, name)[..i], result)
    ensures PartlyCopied(s, before, after, outputs, name)
  {
  }

  /** The next item to be copied cannot be. */
  ghost predicate Unmovable(s: Source, before: map<string, seq<Item>>, after: map<string, seq<Item>>, name: string) {
    && Items(before, name) <= Items(after, name)
    && var n := |Gained(before, after, name)|;
    n < |Listed(s, name)| && !Movable(s, Listed(s, name)[n])
  }

  /** migrateStream without a mover. */
  method MigrateStream(s: Source, d: Destination, name: string) returns (r: Result<seq<Migrated>, Failure>)
    modifies d
    ensures forall n :: n != name ==> Items(d.streams, n) == Items(old(d.streams), n)
    ensures Keeps(old(d.outputs), d.outputs)
    ensures PartlyCopied(s, old(d.streams), d.streams, d.outputs, name)
    ensures r.Ok? ==> Traced(Listed(s, name), Gained(old(d.streams), d.streams, name), r.value)
    ensures r.Err? ==> d.failed || name !in old(d.streams) || Unmovable(s, old(d.streams), d.streams, name)
    ensures old(d.failed) ==> d.failed
  {
    ghost var before := d.streams;
    var items := GetAllStreamItems(s, d, name);
    if items.Err? {
      return Err(items.error);
    }
    var allItemsOnChain := items.value;
    var result: seq<Migrated> := [];
    for i := 0 to |allItemsOnChain|
      invariant Keeps(old(d.outputs), d.outputs)
      invariant Progress(before, d.streams, d.outputs, name, allItemsOnChain[..i], result)
      invariant (name in before ==> name in d.streams) && (old(d.failed) ==> d.failed)
    {
      ghost var mid, outputs := d.streams, d.outputs;
      var moved := MoveItem(s, d, name, allItemsOnChain[i]);
      if moved.Err? {
        ProgressIsPartCopy(s, before, d.streams, d.outputs, name, i, result);
        return Err(moved.error);
      }
      ghost var copy: Item :| copy.txid == moved.value.destinationTx &&
        Moved(mid, d.streams, d.outputs, name, allItemsOnChain[i], copy);
      ProgressNext(before, mid, d.streams, outputs, d.outputs, name, allItemsOnChain, i, result, copy);
      result := result + [moved.value];
    }
    ProgressIsPartCopy(s, before, d.streams, d.outputs, name, |allItemsOnChain|, result);
    assert allItemsOnChain[..|allItemsOnChain|] == allItemsOnChain;
    r := Ok(result);
  }

  // ---------------------------------------------------------------- the whole chain

  predicate Distinct(names: seq<string>) {
    forall i, j :: 0 <= i < j < |names| ==> names[i] != names[j]
  }

  predicate ValidSource(s: Source) {
    && Distinct(s.names)
    && (forall n :: n in s.items ==> DistinctTx(s.items[n]))
  }

  function StreamsOfInterest(names: seq<string>, blacklist: seq<string>): seq<string> {
    if names == [] then [] else
      (if names[0] in blacklist then [] else [names[0]]) + StreamsOfInterest(names[1..], blacklist)
  }

  /** The stream gained one copy per listed item, in order, and each copy passed the check when read back. */
  ghost predicate StreamDone(s: Source, before: map<string, seq<Item>>, after: map<string, seq<Item>>,
                             outputs: map<Output, Json>, name: string) {
    && Items(before, name) <= Items(after, name)
    && var copies := Gained(before, after, name);
    && Copied(outputs, Listed(s, name), copies)
    && forall i :: 0 <= i < |copies| ==> CheckPasses(s.outputs, Listed(s, name)[i], outputs, copies[i])
  }

  /**
    The first `done` streams are copied and checked; the next one, if there is one, has gained copies of some of its
    first items; every other stream, blacklisted ones included, is as before.
  */
  ghost predicate Outcome(s: Source, before: map<string, seq<Item>>, after: map<string, seq<Item>>,
                          outputs: map<Output, Json>, interest: seq<string>, done: nat) {
    && done <= |interest|
    && (forall i :: 0 <= i < done ==> StreamDone(s, before, after, outputs, interest[i]))
    && (done < |interest| ==> PartlyCopied(s, before, after, outputs, interest[done]))
    && (forall n :: n !in interest[..done] && (done < |interest| ==> n != interest[done]) ==>
          Items(after, n) == Items(before, n))
  }

  /** Some item of the stream cannot be copied, or was and does not pass the check. */
  ghost predicate Stuck(s: Source, before: map<string, seq<Item>>, after: map<string, seq<Item>>,
                        outputs: map<Output, Json>, name: string) {
    || Unmovable(s, before, after, name)
    || (Items(before, name) <= Items(after, name) &&
        SomeFail(s, outputs, Listed(s, name), Gained(before, after, name)))
  }

  ghost predicate SomeFail(s: Source, outputs: map<Output, Json>, listed: seq<Item>, copies: seq<Item>) {
    |copies| <= |listed| && exists i :: 0 <= i < |copies| && CheckFails(s, outputs, listed[i], copies[i])
  }

  predicate CheckFails(s: Source, outputs: map<Output, Json>, item: Item, copy: Item) {
    item.txid == "" || copy.txid == "" || !CheckPasses(s.outputs, item, outputs, copy)
  }

  ghost predicate SomeStuck(s: Source, before: map<string, seq<Item>>, after: map<string, seq<Item>>,
                            outputs: map<Output, Json>, interest: seq<string>) {
    exists name :: name in interest && Stuck(s, before, after, outputs, name)
  }

  lemma StuckRebased(s: Source, before: map<string, seq<Item>>, mid: map<string, seq<Item>>,
                     after: map<string, seq<Item>>, outputs: map<Output, Json>, interest: seq<string>, k: nat)
    requires k < |interest| && Items(mid, interest[k]) == Items(before, interest[k])
    requires Stuck(s, mid, after, outputs, interest[k])
    ensures SomeStuck(s, before, after, outputs, interest)
  {
    assert Stuck(s, before, after, outputs, interest[k]);
  }

  method Migrate(s: Source, d: Destination, blacklist: seq<string>) returns (r: Result<bool, Failure>)
    requires ValidSource(s)
    modifies d
    ensures exists done :: Outcome(s, old(d.streams), d.streams, d.outputs, StreamsOfInterest(s.names, blacklist), done)
    ensures r.Ok? ==> var interest := StreamsOfInterest(s.names, blacklist);
                      r.value && Outcome(s, old(d.streams), d.streams, d.outputs, interest, |interest|)
    ensures r.Ok? ==> forall name :: name in StreamsOfInterest(s.names, blacklist) && LargePointers(s, name) ==>
                        (Faithful(s, old(d.streams), d.streams, d.outputs, name) <==> NoPointers(s, name))
    ensures r.Ok? ==> forall name ::
                        name in s.names && name !in blacklist && (OneKey(s, name) || KeepsOrder(s, name)) ==>
                        CopiedInPlace(s, old(d.streams), d.streams, d.outputs, name)
    ensures r.Err? ==>
              d.failed || SomeStuck(s, old(d.streams), d.streams, d.outputs, StreamsOfInterest(s.names, blacklist))
    ensures old(d.failed) ==> d.failed
  {
    var streamsOfInterest := StreamsOfInterest(s.names, blacklist);
    var online := d.Call();
    if !online {
      assert Outcome(s, old(d.streams), d.streams, d.outputs, streamsOfInterest, 0);
      return Err(RpcFailed);
    }
    InterestDistinct(s.names, blacklist);
    ghost var done;
    r, done := MoveStreams(s, d, streamsOfInterest);
    if r.Ok? {
      AllFaithfulIff(s, old(d.streams), d.streams, d.outputs, blacklist);
      AllInPlace(s, old(d.streams), d.streams, d.outputs, blacklist);
    }
  }

  /** The outer loop. */
  method MoveStreams(s: Source, d: Destination, streamsOfInterest: seq<string>)
    returns (r: Result<bool, Failure>, ghost done: nat)
    requires ValidSource(s) && Distinct(streamsOfInterest)
    modifies d
    ensures Outcome(s, old(d.streams), d.streams, d.outputs, streamsOfInterest, done)
    ensures r.Ok? ==> r.value && done == |streamsOfInterest|
    ensures r.Err? ==> d.failed || SomeStuck(s, old(d.streams), d.streams, d.outputs, streamsOfInterest)
    ensures old(d.failed) ==> d.failed
  {
    ghost var before := d.streams;
    done := 0;
    for k := 0 to |streamsOfInterest|
      invariant Outcome(s, before, d.streams, d.outputs, streamsOfInterest, k)
      invariant forall n :: n !in streamsOfInterest[..k] ==> Items(d.streams, n) == Items(before, n)
      invariant old(d.failed) ==> d.failed
    {
      ghost var mid, outputs := d.streams, d.outputs;
      done := k;
      var moved := MoveStream(s, d, streamsOfInterest[k]);
      OutcomeNext(s, before, mid, d.streams, outputs, d.outputs, streamsOfInterest, k, moved.Ok?);
      if moved.Err? {
        if !d.failed {
          StuckRebased(s, before, mid, d.streams, d.outputs, streamsOfInterest, k);
        }
        return Err(moved.error), done;
      }
    }
    r, done := Ok(true), |streamsOfInterest|;
  }

  /** One round of the outer loop: create the stream, move its items, check each of them. */
  method MoveStream(s: Source, d: Destination, name: string) returns (r: Result<bool, Failure>)
    requires ValidSource(s)
    modifies d
    ensures forall n :: n != name ==> Items(d.streams, n) == Items(old(d.streams), n)
    ensures Keeps(old(d.outputs), d.outputs)
    ensures PartlyCopied(s, old(d.streams), d.streams, d.outputs, name)
    ensures r.Ok? ==> StreamDone(s, old(d.streams), d.streams, d.outputs, name)
    ensures r.Err? ==> d.failed || Stuck(s, old(d.streams), d.streams, d.outputs, name)
    ensures old(d.failed) ==> d.failed
  {
    d.CreateStreamIfNotExists(name);
    ghost var created := d.streams;
    var moved := MigrateStream(s, d, name);
    ghost var copies := Gained(created, d.streams, name);
    assert Gained(old(d.streams), d.streams, name) == copies;
    if moved.Err? {
      return Err(moved.error);
    }
    r := CheckStream(s, d, name, moved.value, Items(created, name), copies);
    assert Listed(s, name)[..|copies|] == Listed(s, name);
  }

  /** The verification loop. */
  method CheckStream(s: Source, d: Destination, name: string, migratedStream: seq<Migrated>,
                     ghost before: seq<Item>, ghost copies: seq<Item>)
    returns (r: Result<bool, Failure>)
    requires ValidSource(s)
    requires Items(d.streams, name) == before + copies && FreshTx(before, copies)
    requires Traced(Listed(s, name), copies, migratedStream)
    modifies d`failed
    ensures old(d.failed) ==> d.failed
    ensures r.Err? ==> d.failed || SomeFail(s, d.outputs, Listed(s, name), copies)
    ensures r.Ok? ==>
            forall i :: 0 <= i < |copies| ==> CheckPasses(s.outputs, Listed(s, name)[i], d.outputs, copies[i])
  {
    for i := 0 to |migratedStream|
      invariant forall j :: 0 <= j < i ==> CheckPasses(s.outputs, Listed(s, name)[j], d.outputs, copies[j])
      invariant old(d.failed) ==> d.failed
    {
      var streamItem := migratedStream[i];
      ListedIsFound(s, name, i);
      CopyIsFound(before, copies, i);
      if streamItem.sourceTx == "" || streamItem.destinationTx == "" {
        assert CheckFails(s, d.outputs, Listed(s, name)[i], copies[i]);
        return Err(AssertionFailed);
      }
      var passed := AssertStreamItem(s, d, name, streamItem);
      if passed.Err? {
        assert !d.failed ==> CheckFails(s, d.outputs, Listed(s, name)[i], copies[i]);
        return Err(passed.error);
      }
    }
    r := Ok(true);
  }

  lemma {:induction false} FindTxAppend(a: seq<Item>, b: seq<Item>, txid: string)
    ensures FindTx(a + b, txid) == if FindTx(a, txid).Some? then FindTx(a, txid) else FindTx(b, txid)
  {
    if a == [] {
      assert a + b == b;
    } else {
      FindTxAppend(a[1..], b, txid);
      assert (a + b)[1..] == a[1..] + b;
    }
  }

  /** A copy is found again under its transaction id. */
  lemma CopyIsFound(items: seq<Item>, copies: seq<Item>, i: nat)
    requires FreshTx(items, copies) && i < |copies|
    ensures FindTx(items + copies, copies[i].txid) == Some(copies[i])
  {
    assert items + copies == (items + copies[..i]) + copies[i..];
    FindTxAppend(items + copies[..i], copies[i..], copies[i].txid);
  }

  lemma {:induction false} FindDistinctTx(items: seq<Item>, i: nat)
    requires DistinctTx(items) && i < |items|
    ensures FindTx(items, items[i].txid) == Some(items[i])
  {
    if i > 0 {
      FindDistinctTx(items[1..], i - 1);
    }
  }

  lemma {:induction false} ListingMember(items: seq<Item>, keys: seq<string>, it: Item)
    requires it in Listing(items, keys)
    ensures it in items
  {
    if it in WithKey(items, keys[0]) {
      WithKeyMember(items, keys[0], it);
    } else {
      ListingMember(items, keys[1..], it);
    }
  }

  lemma {:induction false} WithKeyMember(items: seq<Item>, key: string, it: Item)
    ensures it in WithKey(items, key) <==> it in items && key in it.keys
  {
    if items != [] {
      WithKeyMember(items[1..], key, it);
    }
  }

  lemma ListedIsFound(s: Source, name: string, i: nat)
    requires ValidSource(s) && i < |Listed(s, name)|
    ensures FindTx(SourceItems(s, name), Listed(s, name)[i].txid) == Some(Listed(s, name)[i])
  {
    var items := SourceItems(s, name);
    ListingMember(items, SourceKeys(s, name), Listed(s, name)[i]);
    var j :| 0 <= j < |items| && items[j] == Listed(s, name)[i];
    FindDistinctTx(items, j);
  }

  lemma {:induction false} InterestMember(names: seq<string>, blacklist: seq<string>, n: string)
    ensures n in StreamsOfInterest(names, blacklist) <==> n in names && n !in blacklist
  {
    if names != [] {
      InterestMember(names[1..], blacklist, n);
    }
  }

  /** The streams that are not blacklisted, in the order of the source's listing. */
  lemma {:induction false} InterestFilters(names: seq<string>, blacklist: seq<string>, p: string -> bool)
    requires forall n :: p(n) <==> n !in blacklist
    ensures StreamsOfInterest(names, blacklist) == Filter(names, p)
  {
    if names != [] {
      InterestFilters(names[1..], blacklist, p);
    }
  }

  lemma {:induction false} InterestDistinct(names: seq<string>, blacklist: seq<string>)
    requires Distinct(names)
    ensures Distinct(StreamsOfInterest(names, blacklist))
  {
    if names != [] {
      InterestDistinct(names[1..], blacklist);
      InterestMember(names[1..], blacklist, names[0]);
      assert names[0] !in names[1..];
    }
  }

  lemma CheckKept(source: map<Output, Json>, item: Item, before: map<Output, Json>, after: map<Output, Json>,
                  copy: Item)
    requires CheckPasses(source, item, before, copy) && Keeps(before, after)
    ensures CheckPasses(source, item, after, copy)
  {
  }

  lemma DoneKept(s: Source, before: map<string, seq<Item>>, mid: map<string, seq<Item>>, after: map<string, seq<Item>>,
                 outputs: map<Output, Json>, more: map<Output, Json>, name: string)
    requires StreamDone(s, before, mid, outputs, name) && Keeps(outputs, more)
    requires Items(after, name) == Items(mid, name)
    ensures StreamDone(s, before, after, more, name)
  {
    var copies := Gained(before, mid, name);
    CopyKept(outputs, more, Listed(s, name), copies);
    forall i | 0 <= i < |copies|
      ensures CheckPasses(s.outputs, Listed(s, name)[i], more, copies[i])
    {
      CheckKept(s.outputs, Listed(s, name)[i], outputs, more, copies[i]);
    }
  }

  lemma OutcomeNext(s: Source, before: map<string, seq<Item>>, mid: map<string, seq<Item>>,
                    after: map<string, seq<Item>>, outputs: map<Output, Json>, more: map<Output, Json>,
                    interest: seq<string>, k: nat, ok: bool)
    requires k < |interest| && Outcome(s, before, mid, outputs, interest, k) && Keeps(outputs, more)
    requires Distinct(interest)
    requires forall n :: n !in interest[..k] ==> Items(mid, n) == Items(before, n)
    requires forall n :: n != interest[k] ==> Items(after, n) == Items(mid, n)
    requires PartlyCopied(s, mid, after, more, interest[k])
    requires ok ==> StreamDone(s, mid, after, more, interest[k])
    ensures Outcome(s, before, after, more, interest, k)
    ensures ok ==> Outcome(s, before, after, more, interest, k + 1)
    ensures forall n :: n !in interest[..k + 1] ==> Items(after, n) == Items(before, n)
  {
    var name := interest[k];
    assert name !in interest[..k];
    Rebase(s, before, mid, after, more, name);
    forall i | 0 <= i < k
      ensures StreamDone(s, before, after, more, interest[i])
    {
      DoneKept(s, before, mid, after, outputs, more, interest[i]);
    }
    forall n | n !in interest[..k + 1]
      ensures Items(after, n) == Items(before, n)
    {
      assert interest[..k + 1] == interest[..k] + [name];
    }
    if k + 1 < |interest| {
      assert interest[k + 1] !in interest[..k + 1];
      Untouched(s, before, after, more, interest[k + 1]);
    }
    OutcomeHere(s, before, after, more, interest, k);
    if ok {
      OutcomeAhead(s, before, after, more, interest, k);
    }
  }

  lemma OutcomeHere(s: Source, before: map<string, seq<Item>>, after: map<string, seq<Item>>,
                    outputs: map<Output, Json>, interest: seq<string>, k: nat)
    requires k < |interest|
    requires forall i :: 0 <= i < k ==> StreamDone(s, before, after, outputs, interest[i])
    requires forall n :: n !in interest[..k + 1] ==> Items(after, n) == Items(before, n)
    requires PartlyCopied(s, before, after, outputs, interest[k])
    ensures Outcome(s, before, after, outputs, interest, k)
  {
    forall n | n !in interest[..k] && n != interest[k]
      ensures Items(after, n) == Items(before, n)
    {
      NotInMore(interest, k, n);
    }
  }

  lemma OutcomeAhead(s: Source, before: map<string, seq<Item>>, after: map<string, seq<Item>>,
                     outputs: map<Output, Json>, interest: seq<string>, k: nat)
    requires k < |interest|
    requires forall i :: 0 <= i < k ==> StreamDone(s, before, after, outputs, interest[i])
    requires forall n :: n !in interest[..k + 1] ==> Items(after, n) == Items(before, n)
    requires StreamDone(s, before, after, outputs, interest[k])
    requires k + 1 < |interest| ==> PartlyCopied(s, before, after, outputs, interest[k + 1])
    ensures Outcome(s, before, after, outputs, interest, k + 1)
  {
    forall i | 0 <= i < k + 1
      ensures StreamDone(s, before, after, outputs, interest[i])
    {
    }
  }

  lemma NotInMore(names: seq<string>, k: nat, n: string)
    requires k < |names| && n !in names[..k] && n != names[k]
    ensures n !in names[..k + 1]
  {
    assert names[..k + 1] == names[..k] + [names[k]];
  }

  lemma Rebase(s: Source, before: map<string, seq<Item>>, mid: map<string, seq<Item>>, after: map<string, seq<Item>>,
               outputs: map<Output, Json>, name: string)
    requires Items(mid, name) == Items(before, name)
    ensures PartlyCopied(s, mid, after, outputs, name) ==> PartlyCopied(s, before, after, outputs, name)
    ensures StreamDone(s, mid, after, outputs, name) ==> StreamDone(s, before, after, outputs, name)
  {
  }

  lemma Untouched(s: Source, before: map<string, seq<Item>>, after: map<string, seq<Item>>,
                  outputs: map<Output, Json>, name: string)
    requires Items(after, name) == Items(before, name)
    ensures PartlyCopied(s, before, after, outputs, name)
  {
  }

  // ---------------------------------------------------------------- what a completed migration means

  /** The item and its copy stand for the same properties. */
  ghost predicate Preserved(source: map<Output, Json>, item: Item, destination: map<Output, Json>, copy: Item) {
    var o, c := Content(source, item.data), Content(destination, copy.data);
    o.Some? && c.Some? && Fields(o.value) == Fields(c.value)
  }

  /** For an item held in line the check is right: it passes only on a faithful copy. */
  lemma InlineCheckedIff(source: map<Output, Json>, item: Item, destination: map<Output, Json>, copy: Item)
    requires CopyOf(destination, item, copy) && !IsPointer(item.data)
    ensures CheckPasses(source, item, destination, copy) <==>
            || Fields(item.data.value) == map[]
            || (!IsPointer(copy.data) && Fields(item.data.value).Keys == {JSON})
    ensures CheckPasses(source, item, destination, copy) ==> Preserved(source, item, destination, copy)
  {
    var o, p := Fields(item.data.value), Payload(item.data.value);
    assert Property(p, DATA) == None;
    assert o == map[] <==> o.Keys == {};
    if IsPointer(copy.data) {
      assert destination[OutputOf(copy.data.value)] == p;
    } else {
      assert copy.data == Some(p);
      assert (forall k :: k in o ==> k in p.fields && p.fields[k] == o[k]) <==> o.Keys <= {JSON};
      assert o.Keys <= {JSON} <==> o.Keys == {} || o.Keys == {JSON};
    }
  }

  /** An item whose data is a text never passes the check: a text is visited character by character. */
  lemma TextItemFails(source: map<Output, Json>, item: Item, destination: map<Output, Json>, copy: Item, text: string)
    requires CopyOf(destination, item, copy) && item.data == Some(Text(text)) && text != ""
    ensures !CheckPasses(source, item, destination, copy)
  {
    assert Index(0) in Fields(Text(text));
    InlineCheckedIff(source, item, destination, copy);
  }

  /** A pointer to an output of the shape the chain stores: an object without a data property. */
  ghost predicate LargeItem(source: map<Output, Json>, item: Item) {
    && IsPointer(item.data) && JSON !in Fields(item.data.value)
    && OutputOf(item.data.value) in source
    && var output := source[OutputOf(item.data.value)];
    DATA !in Fields(output) && Fields(output) != map[]
  }

  /**
    For an item held out of line the check sees nothing on the source side, so it passes on the copy although the
    copy is empty.
  */
  lemma LargeItemLost(source: map<Output, Json>, item: Item, destination: map<Output, Json>, copy: Item)
    requires CopyOf(destination, item, copy) && LargeItem(source, item)
    ensures CheckPasses(source, item, destination, copy)
    ensures Fields(Content(destination, copy.data).value) == map[]
    ensures !Preserved(source, item, destination, copy)
  {
    assert Seen(source, item.data) == Some(None);
    if IsPointer(copy.data) {
      assert destination[OutputOf(copy.data.value)] == Payload(item.data.value);
    }
  }

  /** Every pointer of the stream leads to such an output. */
  ghost predicate LargePointers(s: Source, name: string) {
    forall i :: 0 <= i < |Listed(s, name)| && IsPointer(Listed(s, name)[i].data) ==>
      LargeItem(s.outputs, Listed(s, name)[i])
  }

  predicate NoPointers(s: Source, name: string) {
    forall i :: 0 <= i < |Listed(s, name)| ==> !IsPointer(Listed(s, name)[i].data)
  }

  /** Every listed item is preserved by its copy. */
  ghost predicate Faithful(s: Source, before: map<string, seq<Item>>, after: map<string, seq<Item>>,
                           outputs: map<Output, Json>, name: string) {
    && Items(before, name) <= Items(after, name)
    && var copies := Gained(before, after, name);
    && |copies| == |Listed(s, name)|
    && forall i :: 0 <= i < |copies| ==> Preserved(s.outputs, Listed(s, name)[i], outputs, copies[i])
  }

  /** A completed stream is faithful exactly when none of its items was held out of line. */
  lemma StreamFaithfulIff(s: Source, before: map<string, seq<Item>>, after: map<string, seq<Item>>,
                          outputs: map<Output, Json>, name: string)
    requires StreamDone(s, before, after, outputs, name) && LargePointers(s, name)
    ensures Faithful(s, before, after, outputs, name) <==> NoPointers(s, name)
  {
    var listed, copies := Listed(s, name), Gained(before, after, name);
    forall i | 0 <= i < |listed|
      ensures Preserved(s.outputs, listed[i], outputs, copies[i]) <==> !IsPointer(listed[i].data)
    {
      assert CopyOf(outputs, listed[i], copies[i]);
      if IsPointer(listed[i].data) {
        LargeItemLost(s.outputs, listed[i], outputs, copies[i]);
      } else {
        InlineCheckedIff(s.outputs, listed[i], outputs, copies[i]);
      }
    }
  }

  /** The stream lists one key, and every item carries it. */
  predicate OneKey(s: Source, name: string) {
    |SourceKeys(s, name)| == 1 && forall it :: it in SourceItems(s, name) ==> SourceKeys(s, name)[0] in it.keys
  }

  /** The same keys, the same json property, and no other property. */
  ghost predicate CopiedJson(outputs: map<Output, Json>, item: Item, copy: Item) {
    && copy.keys == item.keys && item.data.Some?
    && var c := Content(outputs, copy.data);
    c.Some? && Fields(c.value).Keys <= {JSON} && Property(c.value, JSON) == Property(item.data.value, JSON)
  }

  /** The stream has gained a copy of each of the source's items, place by place. */
  ghost predicate CopiedInPlace(s: Source, before: map<string, seq<Item>>, after: map<string, seq<Item>>,
                                outputs: map<Output, Json>, name: string) {
    && Items(before, name) <= Items(after, name)
    && var items, copies := SourceItems(s, name), Gained(before, after, name);
    && |copies| == |items|
    && forall i :: 0 <= i < |items| ==> CopiedJson(outputs, items[i], copies[i])
  }

  lemma {:induction false} AllWithKey(items: seq<Item>, key: string)
    requires forall it :: it in items ==> key in it.keys
    ensures WithKey(items, key) == items
  {
    if items != [] {
      AllWithKey(items[1..], key);
    }
  }

  lemma OneKeyListed(s: Source, name: string)
    requires OneKey(s, name)
    ensures Listed(s, name) == SourceItems(s, name)
  {
    var items, key := SourceItems(s, name), SourceKeys(s, name)[0];
    AllWithKey(items, key);
    assert SourceKeys(s, name) == [key];
    assert Listing(items, [key][1..]) == [];
    assert Listing(items, [key]) == items + [];
  }

  /** Each item carries one key, and the items stand in the order of the keys. */
  ghost predicate KeepsOrder(s: Source, name: string) {
    var items, keys := SourceItems(s, name), SourceKeys(s, name);
    ListsItsKeys(items, keys) && (forall it :: it in items ==> |KeySet(it)| == 1) && InKeyOrder(items, keys)
  }

  /** A completed stream that is listed in its own order is the source's stream again. */
  lemma DoneInPlace(s: Source, before: map<string, seq<Item>>, after: map<string, seq<Item>>,
                    outputs: map<Output, Json>, name: string)
    requires StreamDone(s, before, after, outputs, name) && (OneKey(s, name) || KeepsOrder(s, name))
    ensures CopiedInPlace(s, before, after, outputs, name)
  {
    ListedAsItIs(s, name);
    var items, copies := SourceItems(s, name), Gained(before, after, name);
    forall i | 0 <= i < |items|
      ensures CopiedJson(outputs, items[i], copies[i])
    {
      CopyHasJson(outputs, items[i], copies[i]);
    }
  }

  lemma CopyHasJson(outputs: map<Output, Json>, item: Item, copy: Item)
    requires CopyOf(outputs, item, copy)
    ensures CopiedJson(outputs, item, copy)
  {
  }

  lemma ListedAsItIs(s: Source, name: string)
    requires OneKey(s, name) || KeepsOrder(s, name)
    ensures Listed(s, name) == SourceItems(s, name)
  {
    if OneKey(s, name) {
      OneKeyListed(s, name);
    } else {
      OrderKeptIff(SourceItems(s, name), SourceKeys(s, name));
    }
  }

  lemma AllFaithfulIff(s: Source, before: map<string, seq<Item>>, after: map<string, seq<Item>>,
                       outputs: map<Output, Json>, blacklist: seq<string>)
    requires var interest := StreamsOfInterest(s.names, blacklist);
             Outcome(s, before, after, outputs, interest, |interest|)
    ensures forall name :: name in StreamsOfInterest(s.names, blacklist) && LargePointers(s, name) ==>
              (Faithful(s, before, after, outputs, name) <==> NoPointers(s, name))
  {
    var interest := StreamsOfInterest(s.names, blacklist);
    forall name | name in interest && LargePointers(s, name)
      ensures Faithful(s, before, after, outputs, name) <==> NoPointers(s, name)
    {
      var k :| 0 <= k < |interest| && interest[k] == name;
      StreamFaithfulIff(s, before, after, outputs, name);
    }
  }

  lemma AllInPlace(s: Source, before: map<string, seq<Item>>, after: map<string, seq<Item>>,
                   outputs: map<Output, Json>, blacklist: seq<string>)
    requires var interest := StreamsOfInterest(s.names, blacklist);
             Outcome(s, before, after, outputs, interest, |interest|)
    ensures forall name :: name in s.names && name !in blacklist && (OneKey(s, name) || KeepsOrder(s, name)) ==>
              CopiedInPlace(s, before, after, outputs, name)
  {
    var interest := StreamsOfInterest(s.names, blacklist);
    forall name | name in s.names && name !in blacklist && (OneKey(s, name) || KeepsOrder(s, name))
      ensures CopiedInPlace(s, before, after, outputs, name)
    {
      InterestMember(s.names, blacklist, name);
      var k :| 0 <= k < |interest| && interest[k] == name;
      DoneInPlace(s, before, after, outputs, name);
    }
  }

  const OUTPUT: Output := (Text("tx"), Number(0.0))
  const LARGE := Item("t", ["k"], Some(Node(false, map[TXID := OUTPUT.0, VOUT := OUTPUT.1])))

  /** A chain with one stream that holds one item out of line. */
  function OneLargeItem(): Source {
    Source(["documents"], map["documents" := [LARGE]], map["documents" := ["k"]],
           map[OUTPUT := Node(false, map[JSON := Text("document")])])
  }

  lemma OneLargeItemListed()
    ensures ValidSource(OneLargeItem()) && Listed(OneLargeItem(), "documents") == [LARGE]
    ensures LargeItem(OneLargeItem().outputs, LARGE) && Movable(OneLargeItem(), LARGE)
    ensures StreamsOfInterest(OneLargeItem().names, []) == ["documents"]
  {
    var items, names := [LARGE], ["documents"];
    assert items[1..] == [] && names[1..] == [] && ["k"][1..] == [];
    assert WithKey(items, "k") == items;
    assert Listing(items, ["k"]) == items + [];
  }

  /** Its migration succeeds unless a call fails, and loses the item. */
  method MigrationLosesItem() returns (r: Result<bool, Failure>, d: Destination)
    ensures fresh(d)
    ensures !d.failed ==> r == Ok(true)
    ensures r.Ok? ==> !Faithful(OneLargeItem(), map[], d.streams, d.outputs, "documents")
  {
    var s := OneLargeItem();
    OneLargeItemListed();
    d := new Destination();
    r := Migrate(s, d, []);
    ghost var listed := Listed(s, "documents");
    assert listed[0] == LARGE;
    if r.Err? && !d.failed {
      var name :| name in ["documents"] && Stuck(s, map[], d.streams, d.outputs, name);
      ghost var done :| Outcome(s, map[], d.streams, d.outputs, ["documents"], done);
      LargeNotStuck(s, map[], d.streams, d.outputs, "documents");
      assert false;
    }
  }

  /** A partly copied stream of large items only is not stuck. */
  lemma LargeNotStuck(s: Source, before: map<string, seq<Item>>, after: map<string, seq<Item>>,
                      outputs: map<Output, Json>, name: string)
    requires PartlyCopied(s, before, after, outputs, name)
    requires forall i :: 0 <= i < |Listed(s, name)| ==>
               Listed(s, name)[i].txid != "" && Movable(s, Listed(s, name)[i]) &&
               LargeItem(s.outputs, Listed(s, name)[i])
    ensures !Stuck(s, before, after, outputs, name)
  {
    var listed, copies := Listed(s, name), Gained(before, after, name);
    forall i | 0 <= i < |copies|
      ensures !CheckFails(s, outputs, listed[i], copies[i])
    {
      assert CopyOf(outputs, listed[..|copies|][i], copies[i]);
      LargeItemLost(s.outputs, listed[i], outputs, copies[i]);
    }
  }

  // ---------------------------------------------------------------- how often an item is copied

  function KeySet(it: Item): set<string> {
    set k | k in it.keys
  }

  function Count(items: seq<Item>, it: Item): nat {
    if items == [] then 0 else (if items[0] == it then 1 else 0) + Count(items[1..], it)
  }

  lemma {:induction false} CountIsMultiplicity(items: seq<Item>, it: Item)
    ensures Count(items, it) == multiset(items)[it]
  {
    if items != [] {
      CountIsMultiplicity(items[1..], it);
      assert items == [items[0]] + items[1..];
    }
  }

  lemma {:induction false} CountAppend(a: seq<Item>, b: seq<Item>, it: Item)
    ensures Count(a + b, it) == Count(a, it) + Count(b, it)
  {
    if a == [] {
      assert a + b == b;
    } else {
      CountAppend(a[1..], b, it);
      assert (a + b)[1..] == a[1..] + b;
    }
  }

  lemma {:induction false} WithKeyCount(items: seq<Item>, key: string, it: Item)
    ensures Count(WithKey(items, key), it) == if key in it.keys then Count(items, it) else 0
  {
    if items != [] {
      WithKeyCount(items[1..], key, it);
      if key in items[0].keys {
        assert WithKey(items, key) == [items[0]] + WithKey(items[1..], key);
      } else {
        assert WithKey(items, key) == WithKey(items[1..], key);
      }
    }
  }

  /** How many of the keys the item carries. */
  function Hits(keys: seq<string>, it: Item): nat {
    if keys == [] then 0 else (if keys[0] in it.keys then 1 else 0) + Hits(keys[1..], it)
  }

  /** Those of the keys that the item carries. */
  function KeysIn(keys: seq<string>, it: Item): set<string> {
    set k | k in keys && k in it.keys
  }

  lemma KeysInCons(keys: seq<string>, it: Item)
    requires keys != [] && keys[0] !in keys[1..]
    ensures keys[0] !in KeysIn(keys[1..], it)
    ensures KeysIn(keys, it) == KeysIn(keys[1..], it) + if keys[0] in it.keys then {keys[0]} else {}
  {
    assert keys == [keys[0]] + keys[1..];
  }

  lemma {:induction false} HitsAreKeys(keys: seq<string>, it: Item)
    requires Distinct(keys)
    ensures Hits(keys, it) == |KeysIn(keys, it)|
  {
    if keys == [] {
      assert KeysIn(keys, it) == {};
    } else {
      HitsAreKeys(keys[1..], it);
      KeysInCons(keys, it);
    }
  }

  lemma MulSucc(m: nat, n: nat)
    ensures (m + 1) * n == m * n + n
  {
  }

  /** An item is listed once for each key that it carries. */
  lemma {:induction false} ListingCount(items: seq<Item>, keys: seq<string>, it: Item)
    ensures Count(Listing(items, keys), it) == Hits(keys, it) * Count(items, it)
  {
    if keys != [] {
      ListingCount(items, keys[1..], it);
      WithKeyCount(items, keys[0], it);
      CountAppend(WithKey(items, keys[0]), Listing(items, keys[1..]), it);
      MulSucc(Hits(keys[1..], it), Count(items, it));
    }
  }

  /** The keys a stream lists: each once, and all that its items carry. */
  ghost predicate ListsItsKeys(items: seq<Item>, keys: seq<string>) {
    Distinct(keys) && forall k :: k in keys <==> exists it :: it in items && k in it.keys
  }

  /** A stream is copied item for item exactly when each of its items carries one key. */
  lemma CopiedOnceIff(items: seq<Item>, keys: seq<string>)
    requires ListsItsKeys(items, keys)
    ensures multiset(Listing(items, keys)) == multiset(items) <==> forall it :: it in items ==> |KeySet(it)| == 1
  {
    var listing := Listing(items, keys);
    forall it
      ensures multiset(listing)[it] == multiset(items)[it] <==> (it in items ==> |KeySet(it)| == 1)
    {
      CountIsMultiplicity(items, it);
      CountIsMultiplicity(listing, it);
      ListedOnceIff(items, keys, it);
    }
    assert multiset(listing) == multiset(items) <==> forall it :: multiset(listing)[it] == multiset(items)[it];
  }

  lemma ListedOnceIff(items: seq<Item>, keys: seq<string>, it: Item)
    requires ListsItsKeys(items, keys)
    ensures Count(Listing(items, keys), it) == Count(items, it) <==> (it in items ==> |KeySet(it)| == 1)
  {
    ListingCount(items, keys, it);
    CountIsMultiplicity(items, it);
    TimesIsOnce(Hits(keys, it), Count(items, it));
    if it in items {
      CarriedKeys(items, keys, it);
    }
  }

  lemma CarriedKeys(items: seq<Item>, keys: seq<string>, it: Item)
    requires ListsItsKeys(items, keys) && it in items
    ensures Hits(keys, it) == |KeySet(it)|
  {
    HitsAreKeys(keys, it);
    forall k | k in it.keys
      ensures k in keys
    {
    }
    assert KeysIn(keys, it) == KeySet(it);
  }

  lemma TimesIsOnce(m: nat, n: nat)
    ensures m * n == n <==> n == 0 || m == 1
  {
    if m > 1 {
      assert m * n == n + (m - 1) * n;
    }
  }

  // ---------------------------------------------------------------- when a stream keeps its order

  /** The item carries no two of the keys. */
  predicate AtMostOne(it: Item, keys: seq<string>) {
    forall a, b :: 0 <= a < |keys| && 0 <= b < |keys| && keys[a] in it.keys && keys[b] in it.keys ==> a == b
  }

  /** The one item's keys do not come after the other's. */
  predicate KeysBefore(it: Item, other: Item, keys: seq<string>) {
    forall a, b :: 0 <= a < |keys| && 0 <= b < |keys| && keys[a] in it.keys && keys[b] in other.keys ==> a <= b
  }

  /** The items stand in the order of their keys. */
  predicate InKeyOrder(items: seq<Item>, keys: seq<string>) {
    forall i, j :: 0 <= i < j < |items| ==> KeysBefore(items[i], items[j], keys)
  }

  predicate NoneOf(it: Item, keys: seq<string>) {
    forall a :: 0 <= a < |keys| ==> keys[a] !in it.keys
  }

  /** Items with none of the keys are not listed. */
  lemma {:induction false} NothingListed(items: seq<Item>, keys: seq<string>)
    requires forall it :: it in items ==> NoneOf(it, keys)
    ensures Listing(items, keys) == []
  {
    if keys != [] {
      forall it | it in items
        ensures NoneOf(it, keys[1..])
      {
        assert NoneOf(it, keys);
      }
      NothingListed(items, keys[1..]);
      if WithKey(items, keys[0]) != [] {
        WithKeyMember(items, keys[0], WithKey(items, keys[0])[0]);
      }
    }
  }

  lemma {:induction false} WithKeySnoc(items: seq<Item>, x: Item, key: string)
    ensures WithKey(items + [x], key) == WithKey(items, key) + if key in x.keys then [x] else []
  {
    if items == [] {
      assert items + [x] == [x];
      assert [x][1..] == [];
    } else {
      WithKeySnoc(items[1..], x, key);
      assert (items + [x])[1..] == items[1..] + [x];
    }
  }

  lemma NoneOfMore(items: seq<Item>, x: Item, keys: seq<string>)
    requires NoneOf(x, keys) && forall it :: it in items ==> NoneOf(it, keys)
    ensures Listing(items + [x], keys) == [] == Listing(items, keys)
  {
    NothingListed(items + [x], keys);
    NothingListed(items, keys);
  }

  /** One more item, whose only key is the a-th, and before it no item with a later one. */
  lemma {:induction false} ListingSnoc(items: seq<Item>, x: Item, keys: seq<string>, a: nat)
    requires a < |keys| && keys[a] in x.keys && AtMostOne(x, keys)
    requires forall it :: it in items ==> NoneOf(it, keys[a + 1..])
    ensures Listing(items + [x], keys) == Listing(items, keys) + [x]
  {
    var key, rest := keys[0], keys[1..];
    WithKeySnoc(items, x, key);
    if a == 0 {
      NoneOfMore(items, x, rest);
    } else {
      assert rest[a - 1] == keys[a] && rest[a..] == keys[a + 1..];
      ListingSnoc(items, x, rest, a - 1);
      assert key !in x.keys;
      ConcatAssoc(WithKey(items, key), Listing(items, rest), [x]);
    }
  }

  /** Items with one key each that stand in the order of their keys are listed as they stand. */
  lemma {:induction false} OrderedIsListed(items: seq<Item>, keys: seq<string>)
    requires forall it :: it in items ==> AtMostOne(it, keys) && !NoneOf(it, keys)
    requires InKeyOrder(items, keys)
    ensures Listing(items, keys) == items
  {
    if items == [] {
      NothingListed(items, keys);
    } else {
      var n := |items| - 1;
      var front, x := items[..n], items[n];
      assert items == front + [x] && x in items;
      var a :| 0 <= a < |keys| && keys[a] in x.keys;
      forall it | it in front
        ensures NoneOf(it, keys[a + 1..])
      {
        var i :| 0 <= i < n && front[i] == it;
        assert KeysBefore(items[i], items[n], keys);
      }
      OrderedIsListed(front, keys);
      ListingSnoc(front, x, keys, a);
    }
  }

  lemma {:induction false} ListingKeyed(items: seq<Item>, keys: seq<string>, it: Item)
    requires it in Listing(items, keys)
    ensures it in items && !NoneOf(it, keys)
  {
    if it in WithKey(items, keys[0]) {
      WithKeyMember(items, keys[0], it);
    } else {
      ListingKeyed(items, keys[1..], it);
      var a :| 0 <= a < |keys[1..]| && keys[1..][a] in it.keys;
      assert keys[a + 1] in it.keys;
    }
  }

  /** What is listed stands in the order of the keys, if no item carries two of them. */
  lemma {:induction false} ListedInKeyOrder(items: seq<Item>, keys: seq<string>)
    requires forall it :: it in items ==> AtMostOne(it, keys)
    ensures InKeyOrder(Listing(items, keys), keys)
  {
    if keys != [] {
      var first, rest := WithKey(items, keys[0]), Listing(items, keys[1..]);
      forall it | it in items
        ensures AtMostOne(it, keys[1..])
      {
        assert AtMostOne(it, keys);
      }
      ListedInKeyOrder(items, keys[1..]);
      forall i, j | 0 <= i < j < |first + rest|
        ensures KeysBefore((first + rest)[i], (first + rest)[j], keys)
      {
        if i < |first| {
          WithKeyMember(items, keys[0], first[i]);
          assert AtMostOne(first[i], keys);
        } else {
          assert KeysBefore(rest[i - |first|], rest[j - |first|], keys[1..]);
          LaterBefore(items, keys, rest[i - |first|], rest[j - |first|]);
        }
      }
    }
  }

  lemma LaterBefore(items: seq<Item>, keys: seq<string>, it: Item, other: Item)
    requires keys != [] && it in Listing(items, keys[1..]) && other in Listing(items, keys[1..])
    requires forall x :: x in items ==> AtMostOne(x, keys)
    requires KeysBefore(it, other, keys[1..])
    ensures KeysBefore(it, other, keys)
  {
    forall x | x == it || x == other
      ensures keys[0] !in x.keys
    {
      ListingKeyed(items, keys[1..], x);
      var a :| 0 <= a < |keys[1..]| && keys[1..][a] in x.keys;
      assert keys[a + 1] in x.keys && AtMostOne(x, keys);
    }
    forall a, b | 0 <= a < |keys| && 0 <= b < |keys| && keys[a] in it.keys && keys[b] in other.keys
      ensures a <= b
    {
      assert keys[1..][a - 1] in it.keys && keys[1..][b - 1] in other.keys;
    }
  }

  /** An item that carries one key carries exactly one of those listed. */
  lemma OneListed(items: seq<Item>, keys: seq<string>, it: Item)
    requires ListsItsKeys(items, keys) && it in items && |KeySet(it)| == 1
    ensures AtMostOne(it, keys) && !NoneOf(it, keys)
  {
    var k :| k in KeySet(it);
    var rest := KeySet(it) - {k};
    assert |rest| == 0;
    assert k in keys;
    forall a, b | 0 <= a < |keys| && 0 <= b < |keys| && keys[a] in it.keys && keys[b] in it.keys
      ensures a == b
    {
      assert keys[a] in KeySet(it) && keys[b] in KeySet(it);
      assert keys[a] !in rest && keys[b] !in rest;
    }
  }

  /**
    A stream is listed, and so copied, in its own order exactly when each of its items carries one key and they stand
    in the order of the keys.
  */
  lemma OrderKeptIff(items: seq<Item>, keys: seq<string>)
    requires ListsItsKeys(items, keys)
    ensures Listing(items, keys) == items <==>
            (forall it :: it in items ==> |KeySet(it)| == 1) && InKeyOrder(items, keys)
  {
    if Listing(items, keys) == items {
      CopiedOnceIff(items, keys);
    }
    if forall it :: it in items ==> |KeySet(it)| == 1 {
      forall it | it in items
        ensures AtMostOne(it, keys) && !NoneOf(it, keys)
      {
        OneListed(items, keys, it);
      }
      ListedInKeyOrder(items, keys);
      if InKeyOrder(items, keys) {
        OrderedIsListed(items, keys);
      }
    }
  }
}
