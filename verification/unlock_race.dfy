/**
 Unlocking a squeak reads its key and writes its content in two separate accesses to the database
 (`squeaknode/node/squeak_store.py`, `unlock_squeak`). This is one row of the squeak table while any
 number of threads save keys, unlock, delete and download that squeak.

 Content without a stored key is possible: a squeak deleted and downloaded again between the two accesses
 has no key when the content arrives. The results say exactly when the write is safe.
 */
module UnlockRace {
  import opened Basics
  import opened SqueakCore
  import opened SqueakDatabase
  import opened SqueakStorage

  /** `unlocking` holds, for each unlock under way, the content it decrypted from the key it read. */
  datatype Row = Row(row: Option<SqueakRow>, unlocking: map<nat, string>)

  datatype Event =
    | Download(squeak: Squeak, nowMs: nat)
    | SaveKey(key: Bytes)
    | ReadKey(t: nat, viewer: Viewer)
    | WriteContent(t: nat)
    | GiveUp(t: nat)
    | Delete

  ghost predicate Possible(node: Node, h: Hash, s: Row, e: Event)
    requires node.primitives.group.order > 0
  {
    match e
    case Download(squeak, _) => squeak.hash == h
    case SaveKey(key) => s.row.Some? && AcceptsKey(node.primitives, s.row.value.squeak, key)
    case ReadKey(t, viewer) =>
      && t !in s.unlocking && s.row.Some? && s.row.value.secretKey.Some?
      && node.decrypt(s.row.value.squeak, s.row.value.secretKey.value, viewer).Some?
    case WriteContent(t) => t in s.unlocking
    case _ => true
  }

  ghost function After(node: Node, h: Hash, s: Row, e: Event): Row
    requires node.primitives.group.order > 0 && Possible(node, h, s, e)
  {
    match e
    case Download(squeak, nowMs) =>
      if s.row.Some? then s else s.(row := Some(SqueakRow(squeak, nowMs, None, None, None)))
    case SaveKey(key) => s.(row := Some(s.row.value.(secretKey := Some(key))))
    case ReadKey(t, viewer) =>
      s.(unlocking := s.unlocking[t := node.decrypt(s.row.value.squeak, s.row.value.secretKey.value, viewer).value])
    case WriteContent(t) =>
      s.(row := if s.row.Some? then Some(s.row.value.(content := Some(s.unlocking[t]))) else None,
         unlocking := s.unlocking - {t})
    case GiveUp(t) => s.(unlocking := s.unlocking - {t})
    case Delete => s.(row := None)
  }

  ghost predicate Sound(node: Node, h: Hash, s: Row)
    requires node.primitives.group.order > 0
  {
    s.row.Some? ==> RowOk(node, h, s.row.value)
  }

  /** A hash names one squeak: what is downloaded again is the squeak `original`. */
  ghost predicate IsRun(node: Node, original: Squeak, run: seq<Row>, events: seq<Event>)
    requires node.primitives.group.order > 0
  {
    && |run| == |events| + 1 && run[0] == Row(None, map[])
    && forall k: nat :: k < |events| ==> EventAt(node, original, run, events, k)
  }

  ghost predicate EventAt(node: Node, original: Squeak, run: seq<Row>, events: seq<Event>, k: nat)
    requires node.primitives.group.order > 0
  {
    && k < |events| && k + 1 < |run|
    && Possible(node, original.hash, run[k], events[k])
    && run[k + 1] == After(node, original.hash, run[k], events[k])
    && (events[k].Download? ==> events[k].squeak == original)
  }

  /** Every unlock under way holds a decryption of the squeak under some key the squeak accepts. */
  ghost predicate UnlocksOk(node: Node, original: Squeak, s: Row)
    requires node.primitives.group.order > 0
  {
    && (s.row.Some? ==> s.row.value.squeak == original)
    && forall t :: t in s.unlocking ==> Explains(node, original, s.unlocking[t])
  }

  ghost predicate Explains(node: Node, original: Squeak, content: string)
    requires node.primitives.group.order > 0
  {
    exists k, v :: AcceptsKey(node.primitives, original, k) && node.decrypt(original, k, v) == Some(content)
  }

  /** The one step that can go wrong, and exactly when it does: the row is there and its key is not. */
  lemma ContentWriteIsSafe(node: Node, original: Squeak, s: Row, t: nat)
    requires SoundNode(node) && Sound(node, original.hash, s) && UnlocksOk(node, original, s) && t in s.unlocking
    ensures Sound(node, original.hash, After(node, original.hash, s, WriteContent(t)))
       <==> s.row.None? || s.row.value.secretKey.Some?
  {
    if s.row.Some? && s.row.value.secretKey.Some? {
      var k, v :| AcceptsKey(node.primitives, original, k) && node.decrypt(original, k, v) == Some(s.unlocking[t]);
      assert node.decrypt(original, s.row.value.secretKey.value, v) == Some(s.unlocking[t]);
    }
  }

  lemma OtherStepsAreSafe(node: Node, original: Squeak, s: Row, e: Event)
    requires SoundNode(node) && Sound(node, original.hash, s) && UnlocksOk(node, original, s)
    requires Possible(node, original.hash, s, e) && (e.Download? ==> e.squeak == original)
    ensures UnlocksOk(node, original, After(node, original.hash, s, e))
    ensures !e.WriteContent? ==> Sound(node, original.hash, After(node, original.hash, s, e))
  {
    if e.SaveKey? && s.row.value.content.Some? {
      var row := s.row.value;
      var v :| node.decrypt(row.squeak, row.secretKey.value, v) == row.content;
      assert node.decrypt(row.squeak, e.key, v) == row.content;
    }
    if e.ReadKey? {
      var row := s.row.value;
      assert node.decrypt(original, row.secretKey.value, e.viewer).Some?;
    }
  }

  /** If the step writes content, the row is gone or holds a key. */
  predicate WritesBesideKey(s: Row, e: Event) {
    e.WriteContent? ==> s.row.None? || s.row.value.secretKey.Some?
  }

  /**
   In every interleaving: the row has been sound in every state up to `n` if and only if every write of content
   found no row, or a row with a key.
   */
  lemma {:induction false} SoundExactlyWhenWritesFindKeys(node: Node, original: Squeak, run: seq<Row>, events: seq<Event>, n: nat)
    requires SoundNode(node) && IsRun(node, original, run, events) && n < |run|
    ensures (forall k :: 0 <= k <= n ==> Sound(node, original.hash, run[k]))
       <==> (forall k :: 0 <= k < n ==> WritesBesideKey(run[k], events[k]))
    ensures (forall k :: 0 <= k <= n ==> Sound(node, original.hash, run[k])) ==> UnlocksOk(node, original, run[n])
  {
    if n > 0 {
      SoundExactlyWhenWritesFindKeys(node, original, run, events, n - 1);
      var s, e := run[n - 1], events[n - 1];
      assert EventAt(node, original, run, events, n - 1);
      if forall k :: 0 <= k <= n - 1 ==> Sound(node, original.hash, run[k]) {
        assert Sound(node, original.hash, s);
        OtherStepsAreSafe(node, original, s, e);
        if e.WriteContent? {
          ContentWriteIsSafe(node, original, s, e.t);
        }
      }
    }
  }

  /** The squeak is deleted only while no unlock of it is under way. */
  ghost predicate DeletesAreQuiet(run: seq<Row>, events: seq<Event>) {
    forall k :: 0 <= k < |events| && k < |run| && events[k].Delete? ==> run[k].unlocking == map[]
  }

  /** With that discipline, content always comes with its key, in every interleaving. */
  lemma {:induction false} QuietDeletesKeepContentExplained(node: Node, original: Squeak, run: seq<Row>, events: seq<Event>, k: nat)
    requires SoundNode(node) && IsRun(node, original, run, events) && DeletesAreQuiet(run, events) && k < |run|
    ensures Sound(node, original.hash, run[k]) && UnlocksOk(node, original, run[k])
    ensures run[k].unlocking != map[] ==> run[k].row.Some? && run[k].row.value.secretKey.Some?
  {
    if k > 0 {
      QuietDeletesKeepContentExplained(node, original, run, events, k - 1);
      assert EventAt(node, original, run, events, k - 1);
      var s, e := run[k - 1], events[k - 1];
      OtherStepsAreSafe(node, original, s, e);
      if e.WriteContent? {
        ContentWriteIsSafe(node, original, s, e.t);
      }
    }
  }

  /** Without it, the race is real: any squeak that can be unlocked at all can end with content and no key. */
  lemma DeleteDuringUnlock(node: Node, original: Squeak, key: Bytes, viewer: Viewer) returns (run: seq<Row>, events: seq<Event>)
    requires SoundNode(node) && AcceptsKey(node.primitives, original, key) && node.decrypt(original, key, viewer).Some?
    ensures IsRun(node, original, run, events)
    ensures var last := run[|run| - 1];
            last.row.Some? && last.row.value.content.Some? && last.row.value.secretKey.None?
            && !Sound(node, original.hash, last)
  {
    var bare := SqueakRow(original, 0, None, None, None);
    var content := node.decrypt(original, key, viewer).value;
    events := [Download(original, 0), SaveKey(key), ReadKey(0, viewer), Delete, Download(original, 0), WriteContent(0)];
    run := [
      Row(None, map[]),
      Row(Some(bare), map[]),
      Row(Some(bare.(secretKey := Some(key))), map[]),
      Row(Some(bare.(secretKey := Some(key))), map[0 := content]),
      Row(None, map[0 := content]),
      Row(Some(bare), map[0 := content]),
      Row(Some(bare.(content := Some(content))), map[])];
    assert map[0 := content] - {0} == map[];
  }

  /** An unlock that has given up is no longer under way: the squeak may be deleted then. */
  lemma DeleteAfterGivingUp(node: Node, original: Squeak, key: Bytes, viewer: Viewer) returns (run: seq<Row>, events: seq<Event>)
    requires SoundNode(node) && AcceptsKey(node.primitives, original, key) && node.decrypt(original, key, viewer).Some?
    ensures IsRun(node, original, run, events) && DeletesAreQuiet(run, events)
    ensures events == [Download(original, 0), SaveKey(key), ReadKey(0, viewer), GiveUp(0), Delete]
    ensures run[|run| - 1] == Row(None, map[])
  {
    var bare := SqueakRow(original, 0, None, None, None);
    var content := node.decrypt(original, key, viewer).value;
    events := [Download(original, 0), SaveKey(key), ReadKey(0, viewer), GiveUp(0), Delete];
    run := [
      Row(None, map[]),
      Row(Some(bare), map[]),
      Row(Some(bare.(secretKey := Some(key))), map[]),
      Row(Some(bare.(secretKey := Some(key))), map[0 := content]),
      Row(Some(bare.(secretKey := Some(key))), map[]),
      Row(None, map[])];
    assert map[0 := content] - {0} == map[];
  }
}
