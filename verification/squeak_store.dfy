/**
 The store over the tables (`squeaknode/node/squeak_store.py`): saving squeaks within the limits, buying
 and saving keys, unlocking content, handing out and taking in offers, and the retention loop.

 What each method promises when it raises holds at a crash between any two of its writes; see `SqueakDb`.
 The squeak library, the bitcoin node and the lightning node are the functions of `Node`.
 */
module SqueakStorage {
  import opened Basics
  import opened SecretKeys
  import opened SqueakCore
  import opened SqueakDatabase

  /** On whose behalf content is decrypted. */
  datatype Viewer = Anyone | AsAuthor(privateKey: Bytes) | AsRecipient(privateKey: Bytes)

  datatype Node = Node(
    primitives: Primitives,
    isValid: Squeak -> bool,
    blockHash: int -> Option<Hash>,
    decrypt: (Squeak, Bytes, Viewer) -> Option<string>,
    preimageOf: Hash -> Bytes)

  /** Keys that open the same payment point decrypt alike. */
  ghost predicate SoundNode(node: Node) {
    && IsGroup(node.primitives.group)
    && forall s, k, k', v :: AcceptsKey(node.primitives, s, k) && AcceptsKey(node.primitives, s, k') ==>
         node.decrypt(s, k, v) == node.decrypt(s, k', v)
  }

  /** The squeak is well-formed and names the right block. */
  predicate IsAcceptable(node: Node, squeak: Squeak) {
    node.isValid(squeak) && node.blockHash(squeak.blockHeight) == Some(squeak.blockHash)
  }

  // ----- Row invariants -----
  /** A stored key has passed the key check, and stored content is the decryption under the stored key. */
  ghost predicate RowOk(node: Node, h: Hash, row: SqueakRow)
    requires node.primitives.group.order > 0
  {
    && row.squeak.hash == h
    && (row.secretKey.Some? ==> AcceptsKey(node.primitives, row.squeak, row.secretKey.value))
    && (row.content.Some? ==>
          row.secretKey.Some? && exists v :: node.decrypt(row.squeak, row.secretKey.value, v) == row.content)
  }

  ghost predicate RowsOk(node: Node, squeaks: map<Hash, SqueakRow>)
    requires node.primitives.group.order > 0
  {
    forall h :: h in squeaks ==> RowOk(node, h, squeaks[h])
  }

  /** A paid offer has a sent payment, which carries the key recovered from the preimage and the offer's nonce. */
  ghost predicate PurchasesRecorded(node: Node, offers: map<Hash, ReceivedOfferRow>, payments: map<Hash, SentPayment>)
    requires node.primitives.group.order > 0
  {
    forall h :: h in offers ==>
      && offers[h].offer.paymentHash == h
      && (offers[h].offer.paid ==>
            && h in payments
            && payments[h].squeakHash == offers[h].offer.squeakHash
            && payments[h].secretKey == SubtractTweak(node.primitives.group, node.preimageOf(h), offers[h].offer.nonce))
  }

  /** Nothing but deletion takes a key away. */
  ghost predicate KeysKept(was: map<Hash, SqueakRow>, now: map<Hash, SqueakRow>) {
    forall h :: h in was && h in now && was[h].secretKey.Some? ==> now[h].secretKey.Some?
  }

  // ----- Limits -----
  /** The squeaks of one author at one block height. */
  function SqueaksBy(squeaks: map<Hash, SqueakRow>, author: Bytes, height: int): set<Hash> {
    set h | h in squeaks && squeaks[h].squeak.author == author && squeaks[h].squeak.blockHeight == height
  }

  ghost predicate WithinLimits(squeaks: map<Hash, SqueakRow>, maxSqueaks: nat, maxPerGroup: nat) {
    |squeaks| <= maxSqueaks && forall author, height :: |SqueaksBy(squeaks, author, height)| <= maxPerGroup
  }

  /** Storing a new squeak adds it to its own group and changes no other. */
  lemma InsertedGroup(squeaks: map<Hash, SqueakRow>, row: SqueakRow, author: Bytes, height: int)
    requires row.squeak.hash !in squeaks
    ensures SqueaksBy(squeaks[row.squeak.hash := row], author, height)
         == SqueaksBy(squeaks, author, height)
            + if row.squeak.author == author && row.squeak.blockHeight == height then {row.squeak.hash} else {}
  {
  }

  lemma InsertKeepsLimits(squeaks: map<Hash, SqueakRow>, row: SqueakRow, maxSqueaks: nat, maxPerGroup: nat)
    requires WithinLimits(squeaks, maxSqueaks, maxPerGroup) && row.squeak.hash !in squeaks
    requires |squeaks| < maxSqueaks && |SqueaksBy(squeaks, row.squeak.author, row.squeak.blockHeight)| < maxPerGroup
    ensures WithinLimits(squeaks[row.squeak.hash := row], maxSqueaks, maxPerGroup)
  {
    var now := squeaks[row.squeak.hash := row];
    forall author, height ensures |SqueaksBy(now, author, height)| <= maxPerGroup {
      InsertedGroup(squeaks, row, author, height);
    }
  }

  // ----- Retention -----
  function AuthorProfiles(profiles: seq<Profile>, key: Bytes): (ps: seq<Profile>)
    ensures forall p :: p in ps <==> p in profiles && p.publicKey == key
  {
    if profiles == [] then
      []
    else
      (if profiles[0].publicKey == key then [profiles[0]] else []) + AuthorProfiles(profiles[1..], key)
  }

  ghost predicate UniquePublicKeys(profiles: seq<Profile>) {
    forall i, j :: 0 <= i < j < |profiles| ==> profiles[i].publicKey != profiles[j].publicKey
  }

  /** A left outer join keeps one row, with no profile, for a squeak that matches none. */
  function OuterJoin(profiles: seq<Profile>, key: Option<Bytes>): (ps: seq<Option<Profile>>)
    ensures |ps| > 0
  {
    var matches := if key.Some? then AuthorProfiles(profiles, key.value) else [];
    if matches == [] then [None] else seq(|matches|, i requires 0 <= i < |matches| => Some(matches[i]))
  }

  /** The second join repeats each row of the first once per recipient row. */
  function JoinAgain(authors: seq<Option<Profile>>, recipients: seq<Option<Profile>>): seq<Option<Profile>> {
    if authors == [] then [] else seq(|recipients|, _ => authors[0]) + JoinAgain(authors[1..], recipients)
  }

  /** The rows that joining one squeak with its author's and its recipient's profile yields, each with its author. */
  function JoinedRows(profiles: seq<Profile>, row: SqueakRow): seq<Option<Profile>> {
    JoinAgain(OuterJoin(profiles, Some(row.squeak.author)), OuterJoin(profiles, row.squeak.recipient))
  }

  predicate IsOlderThanRetention(row: SqueakRow, nowMs: nat, retentionS: nat) {
    nowMs > row.createdMs + retentionS * 1000
  }

  /** The `where` clauses of the query, on a joined row. */
  predicate IsSelected(row: SqueakRow, author: Option<Profile>, nowMs: nat, retentionS: nat) {
    IsOlderThanRetention(row, nowMs, retentionS) && !(author.Some? && author.value.privateKey.Some?) && row.likedMs.None?
  }

  /** The hashes the query returns for one squeak: one for each joined row that is selected. */
  function SelectedHashes(h: Hash, row: SqueakRow, authors: seq<Option<Profile>>, nowMs: nat, retentionS: nat): seq<Hash> {
    if authors == [] then
      []
    else
      (if IsSelected(row, authors[0], nowMs, retentionS) then [h] else [])
      + SelectedHashes(h, row, authors[1..], nowMs, retentionS)
  }

  /** The query, over the squeaks in whatever order the database visits them. */
  function OldSqueaksToDelete(
      squeaks: map<Hash, SqueakRow>, profiles: seq<Profile>, order: seq<Hash>, nowMs: nat, retentionS: nat): seq<Hash>
    requires forall h :: h in order ==> h in squeaks
  {
    if order == [] then
      []
    else
      SelectedHashes(order[0], squeaks[order[0]], JoinedRows(profiles, squeaks[order[0]]), nowMs, retentionS)
      + OldSqueaksToDelete(squeaks, profiles, order[1..], nowMs, retentionS)
  }

  /** The author is one of the node's own signing profiles. */
  ghost predicate AuthorCanSign(profiles: seq<Profile>, author: Bytes) {
    exists p :: p in profiles && p.publicKey == author && p.privateKey.Some?
  }

  /** What retention is for: young, liked and own squeaks stay. */
  ghost predicate Retained(row: SqueakRow, profiles: seq<Profile>, nowMs: nat, retentionS: nat) {
    !IsOlderThanRetention(row, nowMs, retentionS) || row.likedMs.Some? || AuthorCanSign(profiles, row.squeak.author)
  }

  lemma {:induction false} AtMostOneProfile(profiles: seq<Profile>, key: Bytes)
    requires UniquePublicKeys(profiles)
    ensures |AuthorProfiles(profiles, key)| <= 1
  {
    if profiles != [] {
      AtMostOneProfile(profiles[1..], key);
      var rest := AuthorProfiles(profiles[1..], key);
      assert rest != [] ==> rest[0] in rest;
    }
  }

  /** Public keys being unique, the two joins neither drop a squeak nor repeat it. */
  lemma JoinIsOneRow(profiles: seq<Profile>, row: SqueakRow)
    requires UniquePublicKeys(profiles)
    ensures var rows := JoinedRows(profiles, row);
            && |rows| == 1
            && (AuthorCanSign(profiles, row.squeak.author) <==> rows[0].Some? && rows[0].value.privateKey.Some?)
  {
    var key := row.squeak.author;
    AtMostOneProfile(profiles, key);
    if row.squeak.recipient.Some? {
      AtMostOneProfile(profiles, row.squeak.recipient.value);
    }
    var matches, authors := AuthorProfiles(profiles, key), OuterJoin(profiles, Some(key));
    assert |authors| == 1 && |OuterJoin(profiles, row.squeak.recipient)| == 1;
    assert JoinedRows(profiles, row) == [authors[0]] + JoinAgain(authors[1..], OuterJoin(profiles, row.squeak.recipient));
    if matches != [] {
      assert matches[0] in matches && authors[0] == Some(matches[0]);
      assert forall p :: p in matches ==> p == matches[0];
    }
  }

  lemma SelectedOnce(h: Hash, row: SqueakRow, profiles: seq<Profile>, nowMs: nat, retentionS: nat)
    requires UniquePublicKeys(profiles)
    ensures SelectedHashes(h, row, JoinedRows(profiles, row), nowMs, retentionS)
         == if Retained(row, profiles, nowMs, retentionS) then [] else [h]
  {
    JoinIsOneRow(profiles, row);
    var rows := JoinedRows(profiles, row);
    assert SelectedHashes(h, row, rows[1..], nowMs, retentionS) == [];
  }

  lemma {:induction false} QueryIsFilter(
      squeaks: map<Hash, SqueakRow>, profiles: seq<Profile>, order: seq<Hash>, nowMs: nat, retentionS: nat)
    requires UniquePublicKeys(profiles)
    requires forall h :: h in order ==> h in squeaks
    requires forall i, j :: 0 <= i < j < |order| ==> order[i] != order[j]
    ensures var hashes := OldSqueaksToDelete(squeaks, profiles, order, nowMs, retentionS);
            && (forall h :: h in hashes <==> h in order && !Retained(squeaks[h], profiles, nowMs, retentionS))
            && (forall i, j :: 0 <= i < j < |hashes| ==> hashes[i] != hashes[j])
  {
    if order != [] {
      var h := order[0];
      QueryIsFilter(squeaks, profiles, order[1..], nowMs, retentionS);
      SelectedOnce(h, squeaks[h], profiles, nowMs, retentionS);
      assert forall g :: g in order <==> g == h || g in order[1..];
      assert h !in order[1..];
    }
  }

  /** A row once its key is saved: a squeak that is not private is unlocked with it. */
  function Keyed(node: Node, row: SqueakRow, key: Bytes): SqueakRow {
    row.(secretKey := Some(key),
         content := if row.squeak.recipient.None? then node.decrypt(row.squeak, key, Anyone) else row.content)
  }

  /** On whose behalf an unlock decrypts: a recipient takes precedence; a named profile must exist and hold a private key. */
  function ViewerFor(profiles: seq<Profile>, author: Option<Bytes>, recipient: Option<Bytes>): Option<Viewer> {
    if author.None? && recipient.None? then
      Some(Anyone)
    else
      var named := AuthorProfiles(profiles, if recipient.Some? then recipient.value else author.value);
      if named == [] || named[0].privateKey.None? then None
      else if recipient.Some? then Some(AsRecipient(named[0].privateKey.value))
      else Some(AsAuthor(named[0].privateKey.value))
  }

  /** What unlocking a stored squeak shows, if it succeeds. */
  function Unlocked(node: Node, profiles: seq<Profile>, row: SqueakRow, author: Option<Bytes>, recipient: Option<Bytes>): Option<string> {
    var viewer := ViewerFor(profiles, author, recipient);
    if row.secretKey.None? || viewer.None? then None
    else node.decrypt(row.squeak, row.secretKey.value, viewer.value)
  }

  /** Saving a key to a stored squeak takes one write, and a second one, for the content, unless the squeak is private. */
  predicate CanSaveKey(node: Node, row: SqueakRow, key: Bytes, writesLeft: nat)
    requires node.primitives.group.order > 0
  {
    && AcceptsKey(node.primitives, row.squeak, key)
    && writesLeft >= (if row.squeak.recipient.None? then 2 else 1)
    && (row.squeak.recipient.None? ==> node.decrypt(row.squeak, key, Anyone).Some?)
  }

  /**
   The row and the writes that saving a key to it leaves. A key that is refused or meets no write changes nothing;
   the key of a squeak that cannot be unlocked stays.
   */
  function WithKey(node: Node, row: SqueakRow, key: Bytes, writesLeft: nat): (SqueakRow, nat)
    requires node.primitives.group.order > 0
  {
    if !AcceptsKey(node.primitives, row.squeak, key) || writesLeft == 0 then (row, writesLeft)
    else if CanSaveKey(node, row, key, writesLeft) then
      (Keyed(node, row, key), writesLeft - (if row.squeak.recipient.None? then 2 else 1))
    else (row.(secretKey := Some(key)), writesLeft - 1)
  }

  function Without(squeaks: map<Hash, SqueakRow>, hashes: seq<Hash>): map<Hash, SqueakRow> {
    map h | h in squeaks && h !in hashes :: squeaks[h]
  }

  lemma WithoutNext(squeaks: map<Hash, SqueakRow>, hashes: seq<Hash>, i: nat)
    requires i < |hashes|
    ensures Without(squeaks, hashes[..i + 1]) == Without(squeaks, hashes[..i]) - {hashes[i]}
  {
    assert hashes[..i + 1] == hashes[..i] + [hashes[i]];
  }

  /** The squeaks that retention does not keep. */
  ghost function Expendable(squeaks: map<Hash, SqueakRow>, profiles: seq<Profile>, nowMs: nat, retentionS: nat): set<Hash> {
    set h | h in squeaks && !Retained(squeaks[h], profiles, nowMs, retentionS)
  }

  lemma {:induction false} DistinctCount(hashes: seq<Hash>)
    requires forall i, j :: 0 <= i < j < |hashes| ==> hashes[i] != hashes[j]
    ensures |set h | h in hashes| == |hashes|
  {
    if hashes != [] {
      var front, last := hashes[..|hashes| - 1], hashes[|hashes| - 1];
      DistinctCount(front);
      assert (set h | h in hashes) == (set h | h in front) + {last};
    }
  }

  lemma SizeWithout(squeaks: map<Hash, SqueakRow>, hashes: seq<Hash>)
    requires forall i, j :: 0 <= i < j < |hashes| ==> hashes[i] != hashes[j]
    requires forall h :: h in hashes ==> h in squeaks
    ensures |Without(squeaks, hashes)| == |squeaks| - |hashes|
  {
    DistinctCount(hashes);
    assert Without(squeaks, hashes).Keys == squeaks.Keys - (set h | h in hashes);
    assert (set h | h in hashes) <= squeaks.Keys;
  }

  /** An order in which the database may visit the rows of the table. */
  ghost predicate IsRowOrder(order: seq<Hash>, squeaks: map<Hash, SqueakRow>) {
    && (forall h :: h in order <==> h in squeaks)
    && (forall i, j :: 0 <= i < j < |order| ==> order[i] != order[j])
  }

  lemma ExpendableCount(squeaks: map<Hash, SqueakRow>, profiles: seq<Profile>, order: seq<Hash>, nowMs: nat, retentionS: nat)
    requires UniquePublicKeys(profiles) && IsRowOrder(order, squeaks)
    ensures |Expendable(squeaks, profiles, nowMs, retentionS)| == |OldSqueaksToDelete(squeaks, profiles, order, nowMs, retentionS)|
  {
    var hashes := OldSqueaksToDelete(squeaks, profiles, order, nowMs, retentionS);
    QueryIsFilter(squeaks, profiles, order, nowMs, retentionS);
    DistinctCount(hashes);
    assert Expendable(squeaks, profiles, nowMs, retentionS) == set h | h in hashes;
  }

  lemma SizeOfFirst(squeaks: map<Hash, SqueakRow>, profiles: seq<Profile>, order: seq<Hash>, nowMs: nat, retentionS: nat, i: nat)
    requires UniquePublicKeys(profiles) && IsRowOrder(order, squeaks)
    requires i <= |OldSqueaksToDelete(squeaks, profiles, order, nowMs, retentionS)|
    ensures |Without(squeaks, OldSqueaksToDelete(squeaks, profiles, order, nowMs, retentionS)[..i])| == |squeaks| - i
  {
    QueryIsFilter(squeaks, profiles, order, nowMs, retentionS);
    SizeWithout(squeaks, OldSqueaksToDelete(squeaks, profiles, order, nowMs, retentionS)[..i]);
  }

  /** `count` squeaks have been deleted, none of them retained; once all expendable ones are, only retained squeaks are left. */
  ghost predicate IsTrimmed(
      was: map<Hash, SqueakRow>, left: map<Hash, SqueakRow>, profiles: seq<Profile>, nowMs: nat, retentionS: nat, count: nat)
  {
    && |left| == |was| - count
    && (forall h :: h in left ==> h in was && left[h] == was[h])
    && (forall h :: h in was && Retained(was[h], profiles, nowMs, retentionS) ==> h in left)
    && (count == |Expendable(was, profiles, nowMs, retentionS)| ==>
          forall h :: h in left ==> Retained(was[h], profiles, nowMs, retentionS))
  }

  /** A squeak is left exactly if it is younger than the retention, liked, or by a profile that holds its private key. */
  ghost predicate LeavesYoungLikedAndOwn(
      was: map<Hash, SqueakRow>, left: map<Hash, SqueakRow>, profiles: seq<Profile>, nowMs: nat, retentionS: nat)
  {
    forall h :: h in was ==>
      (h in left <==>
         || nowMs <= was[h].createdMs + retentionS * 1000
         || was[h].likedMs.Some?
         || exists p :: p in profiles && p.publicKey == was[h].squeak.author && p.privateKey.Some?)
  }

  /** Deleting the first `i` hashes of the query takes away `i` squeaks, none of them retained; deleting all leaves only those. */
  lemma DeletingSelected(
      squeaks: map<Hash, SqueakRow>, profiles: seq<Profile>, order: seq<Hash>, nowMs: nat, retentionS: nat, i: nat)
    requires UniquePublicKeys(profiles) && IsRowOrder(order, squeaks)
    requires i <= |OldSqueaksToDelete(squeaks, profiles, order, nowMs, retentionS)|
    ensures var hashes := OldSqueaksToDelete(squeaks, profiles, order, nowMs, retentionS);
            && |hashes| == |Expendable(squeaks, profiles, nowMs, retentionS)|
            && IsTrimmed(squeaks, Without(squeaks, hashes[..i]), profiles, nowMs, retentionS, i)
  {
    var hashes := OldSqueaksToDelete(squeaks, profiles, order, nowMs, retentionS);
    QueryIsFilter(squeaks, profiles, order, nowMs, retentionS);
    SizeOfFirst(squeaks, profiles, order, nowMs, retentionS, i);
    ExpendableCount(squeaks, profiles, order, nowMs, retentionS);
    forall h | h in hashes[..i] ensures h in hashes {
    }
    assert i == |hashes| ==> hashes[..i] == hashes;
  }

  /** A run returns exactly if the writes cover all expendable squeaks, and deletes as many as there are writes. */
  ghost predicate IsRetentionRun(
      was: map<Hash, SqueakRow>, left: map<Hash, SqueakRow>, profiles: seq<Profile>, nowMs: nat, retentionS: nat, writesLeft: nat,
      returned: bool)
  {
    var count := |Expendable(was, profiles, nowMs, retentionS)|;
    && (returned <==> count <= writesLeft)
    && IsTrimmed(was, left, profiles, nowMs, retentionS, if returned then count else writesLeft)
  }

  lemma AllTrimmed(was: map<Hash, SqueakRow>, left: map<Hash, SqueakRow>, profiles: seq<Profile>, nowMs: nat, retentionS: nat)
    requires IsTrimmed(was, left, profiles, nowMs, retentionS, |Expendable(was, profiles, nowMs, retentionS)|)
    ensures LeavesYoungLikedAndOwn(was, left, profiles, nowMs, retentionS)
  {
  }

  lemma RetentionRun(
      was: map<Hash, SqueakRow>, profiles: seq<Profile>, order: seq<Hash>, nowMs: nat, retentionS: nat, i: nat, writesLeft: nat)
    requires UniquePublicKeys(profiles) && IsRowOrder(order, was)
    requires i <= |OldSqueaksToDelete(was, profiles, order, nowMs, retentionS)| && i <= writesLeft
    requires i < |OldSqueaksToDelete(was, profiles, order, nowMs, retentionS)| ==> i == writesLeft
    ensures var hashes := OldSqueaksToDelete(was, profiles, order, nowMs, retentionS);
            var left := Without(was, hashes[..i]);
            && IsRetentionRun(was, left, profiles, nowMs, retentionS, writesLeft, i == |hashes|)
            && (i == |hashes| ==> LeavesYoungLikedAndOwn(was, left, profiles, nowMs, retentionS))
  {
    var hashes := OldSqueaksToDelete(was, profiles, order, nowMs, retentionS);
    DeletingSelected(was, profiles, order, nowMs, retentionS, i);
    if i == |hashes| {
      AllTrimmed(was, Without(was, hashes[..i]), profiles, nowMs, retentionS);
    }
  }

  // ----- Store -----
  class SqueakStore {
    const db: SqueakDb
    const node: Node
    const maxSqueaks: nat
    const maxSqueaksPerPublicKeyPerBlock: nat
    const squeakRetentionS: nat

    constructor (db: SqueakDb, node: Node, maxSqueaks: nat, maxPerGroup: nat, squeakRetentionS: nat)
      ensures this.db == db && this.node == node && this.maxSqueaks == maxSqueaks
      ensures maxSqueaksPerPublicKeyPerBlock == maxPerGroup && this.squeakRetentionS == squeakRetentionS
    {
      this.db, this.node, this.maxSqueaks := db, node, maxSqueaks;
      this.maxSqueaksPerPublicKeyPerBlock, this.squeakRetentionS := maxPerGroup, squeakRetentionS;
    }

    ghost predicate Sane()
      reads db
    {
      SoundNode(node) && RowsOk(node, db.squeaks) && PurchasesRecorded(node, db.receivedOffers, db.sentPayments)
    }

    /** Saves an acceptable squeak while there is room for it. One caller at a time, both limits are kept. */
    method SaveSqueak(squeak: Squeak) returns (r: Outcome<bool>)
      requires Sane()
      modifies db`writesLeft, db`squeaks
      ensures Sane() && KeysKept(old(db.squeaks), db.squeaks)
      ensures r.Raised? <==>
                || !node.isValid(squeak) || node.blockHash(squeak.blockHeight) != Some(squeak.blockHash)
                || |old(db.squeaks)| >= maxSqueaks
                || |set h | h in old(db.squeaks) && old(db.squeaks)[h].squeak.author == squeak.author
                          && old(db.squeaks)[h].squeak.blockHeight == squeak.blockHeight| >= maxSqueaksPerPublicKeyPerBlock
                || old(db.writesLeft) == 0
      ensures db.writesLeft == if r.Returned? then old(db.writesLeft) - 1 else old(db.writesLeft)
      ensures r.Returned? ==> r.value == (squeak.hash !in old(db.squeaks))
      ensures db.squeaks == if r == Returned(true)
                            then old(db.squeaks)[squeak.hash := SqueakRow(squeak, db.nowMs, None, None, None)]
                            else old(db.squeaks)
      ensures old(WithinLimits(db.squeaks, maxSqueaks, maxSqueaksPerPublicKeyPerBlock)) ==>
                WithinLimits(db.squeaks, maxSqueaks, maxSqueaksPerPublicKeyPerBlock)
    {
      if !node.isValid(squeak) {
        return Raised;
      }
      if node.blockHash(squeak.blockHeight) != Some(squeak.blockHash) {
        return Raised;
      }
      if |db.squeaks| >= maxSqueaks {
        return Raised;
      }
      if |SqueaksBy(db.squeaks, squeak.author, squeak.blockHeight)| >= maxSqueaksPerPublicKeyPerBlock {
        return Raised;
      }
      if WithinLimits(db.squeaks, maxSqueaks, maxSqueaksPerPublicKeyPerBlock) && squeak.hash !in db.squeaks {
        InsertKeepsLimits(db.squeaks, SqueakRow(squeak, db.nowMs, None, None, None), maxSqueaks, maxSqueaksPerPublicKeyPerBlock);
      }
      r := db.InsertSqueak(squeak);
    }

    /** Saves a key that passes the check, and then the content, if the squeak is not private. */
    method SaveSecretKey(h: Hash, key: Bytes) returns (r: Outcome<()>)
      requires Sane()
      modifies db`writesLeft, db`squeaks
      ensures Sane() && KeysKept(old(db.squeaks), db.squeaks)
      ensures r.Returned? <==> h in old(db.squeaks) && CanSaveKey(node, old(db.squeaks)[h], key, old(db.writesLeft))
      ensures h !in old(db.squeaks) ==> db.writesLeft == old(db.writesLeft)
      ensures h in old(db.squeaks) ==>
                var saved := WithKey(node, old(db.squeaks)[h], key, old(db.writesLeft));
                db.squeaks == old(db.squeaks)[h := saved.0] && db.writesLeft == saved.1
      ensures db.squeaks.Keys == old(db.squeaks).Keys
      ensures forall g :: g in old(db.squeaks) && g != h ==> db.squeaks[g] == old(db.squeaks)[g]
      ensures h in old(db.squeaks) ==>
                db.squeaks[h] == old(db.squeaks)[h].(secretKey := db.squeaks[h].secretKey, content := db.squeaks[h].content)
      ensures h in old(db.squeaks) ==> db.squeaks[h].secretKey == old(db.squeaks)[h].secretKey || db.squeaks[h].secretKey == Some(key)
      ensures h !in old(db.squeaks) || !AcceptsKey(node.primitives, old(db.squeaks)[h].squeak, key) ==>
                r.Raised? && db.squeaks == old(db.squeaks)
      ensures r.Returned? ==> h in old(db.squeaks) && db.squeaks == old(db.squeaks)[h := Keyed(node, old(db.squeaks)[h], key)]
      ensures r.Returned? && old(db.squeaks)[h].squeak.recipient.None? ==> db.squeaks[h].content.Some?
    {
      if h !in db.squeaks {
        return Raised;
      }
      var row := db.squeaks[h];
      if !AcceptsKey(node.primitives, row.squeak, key) {
        return Raised;
      }
      r := db.SetSqueakSecretKey(h, key);
      if r.Returned? && row.squeak.recipient.None? {
        r := UnlockSqueak(h, None, None);
      }
    }

    /**
     Decrypts a squeak whose key is held. A recipient, if one is named, takes precedence over an author; a
     named profile must exist and hold a private key.
     */
    method UnlockSqueak(h: Hash, author: Option<Bytes>, recipient: Option<Bytes>) returns (r: Outcome<()>)
      requires Sane()
      modifies db`writesLeft, db`squeaks
      ensures Sane() && KeysKept(old(db.squeaks), db.squeaks)
      ensures db.squeaks == old(db.squeaks)
           || (h in old(db.squeaks) && h in db.squeaks
               && db.squeaks == old(db.squeaks)[h := old(db.squeaks)[h].(content := db.squeaks[h].content)])
      ensures r.Returned? <==>
                h in old(db.squeaks) && Unlocked(node, db.profiles, old(db.squeaks)[h], author, recipient).Some? && old(db.writesLeft) > 0
      ensures db.writesLeft == if r.Returned? then old(db.writesLeft) - 1 else old(db.writesLeft)
      ensures r.Raised? ==> db.squeaks == old(db.squeaks)
      ensures r.Returned? ==> h in db.squeaks && db.squeaks[h].secretKey.Some? && db.squeaks[h].content.Some?
      ensures r.Returned? ==> db.squeaks[h].content == Unlocked(node, db.profiles, old(db.squeaks)[h], author, recipient)
      ensures r.Returned? && author.None? && recipient.None? ==>
                db.squeaks[h].content == node.decrypt(db.squeaks[h].squeak, db.squeaks[h].secretKey.value, Anyone)
      ensures r.Returned? && (author.Some? || recipient.Some?) ==>
                var named := if recipient.Some? then recipient.value else author.value;
                exists p :: p in db.profiles && p.publicKey == named && p.privateKey.Some?
                  && db.squeaks[h].content == node.decrypt(db.squeaks[h].squeak, db.squeaks[h].secretKey.value,
                       if recipient.Some? then AsRecipient(p.privateKey.value) else AsAuthor(p.privateKey.value))
    {
      if h !in db.squeaks || db.squeaks[h].secretKey.None? {
        return Raised;
      }
      var row := db.squeaks[h];
      var viewer := Anyone;
      if recipient.Some? || author.Some? {
        var profiles := AuthorProfiles(db.profiles, if recipient.Some? then recipient.value else author.value);
        if profiles == [] || profiles[0].privateKey.None? {
          return Raised;
        }
        assert profiles[0] in profiles;
        var privateKey := profiles[0].privateKey.value;
        viewer := if recipient.Some? then AsRecipient(privateKey) else AsAuthor(privateKey);
      }
      var content := node.decrypt(row.squeak, row.secretKey.value, viewer);
      if content.None? {
        return Raised;
      }
      r := db.SetSqueakDecryptedContent(h, content.value);
    }

    /**
     Buys the key of a stored offer: `pays` is whether the lightning node pays the invoice, and the payment
     reveals its preimage. Three writes follow; at every point between them `Sane` holds.
     */
    method PayOffer(paymentHash: Hash, pays: bool) returns (r: Outcome<()>)
      requires Sane()
      modifies db`writesLeft, db`squeaks, db`receivedOffers, db`sentPayments
      ensures Sane() && KeysKept(old(db.squeaks), db.squeaks)
      ensures db.squeaks.Keys == old(db.squeaks).Keys && db.receivedOffers.Keys == old(db.receivedOffers).Keys
      ensures forall h :: h in old(db.sentPayments) ==> h in db.sentPayments && db.sentPayments[h] == old(db.sentPayments)[h]
      ensures paymentHash !in old(db.receivedOffers) || !pays || paymentHash in old(db.sentPayments) ==>
                r.Raised? && db.squeaks == old(db.squeaks) && db.receivedOffers == old(db.receivedOffers)
                && db.sentPayments == old(db.sentPayments)
      ensures r.Returned? <==>
                && paymentHash in old(db.receivedOffers) && pays && paymentHash !in old(db.sentPayments)
                && var offer := old(db.receivedOffers)[paymentHash].offer;
                   var bought := SqueakCore.PayOffer(node.primitives, offer, node.preimageOf(paymentHash));
                   && bought.Returned? && offer.squeakHash in old(db.squeaks) && old(db.writesLeft) >= 2
                   && CanSaveKey(node, old(db.squeaks)[offer.squeakHash], bought.value.secretKey, old(db.writesLeft) - 2)
      ensures r.Returned? ==>
                var offer := old(db.receivedOffers)[paymentHash].offer;
                var bought := SqueakCore.PayOffer(node.primitives, offer, node.preimageOf(paymentHash));
                && bought.Returned? && db.sentPayments == old(db.sentPayments)[paymentHash := bought.value]
                && db.receivedOffers == SetReceivedOfferPaid(old(db.receivedOffers), paymentHash)
                && offer.squeakHash in db.squeaks
                && db.squeaks[offer.squeakHash].secretKey == Some(bought.value.secretKey)
    {
      if paymentHash !in db.receivedOffers {
        return Raised;
      }
      var offer := db.receivedOffers[paymentHash].offer;
      var bought := SqueakCore.PayOffer(node.primitives, offer, if pays then node.preimageOf(paymentHash) else []);
      if bought.Raised? {
        return Raised;
      }
      r := db.InsertSentPayment(bought.value);
      if r.Raised? {
        return;
      }
      r := db.MarkReceivedOfferPaid(bought.value.paymentHash);
      if r.Raised? {
        return;
      }
      r := SaveSecretKey(offer.squeakHash, bought.value.secretKey);
    }

    /**
     Makes an offer for a squeak whose key is held. `nonce` is drawn at random and `invoice` is the lightning
     node's answer. Whatever is handed out has been saved first.
     */
    method GetSentOfferForPeer(h: Hash, peer: PeerAddress, priceMsat: int, nonce: Bytes, invoice: Outcome<Invoice>)
      returns (r: Outcome<Option<SentOffer>>)
      modifies db`writesLeft, db`sentOffers
      ensures r.Returned? && r.value.Some? ==>
                && h in db.squeaks && db.squeaks[h].secretKey.Some? && invoice.Returned?
                && r.value.value == CreateOffer(db.squeaks[h].squeak, nonce, peer, priceMsat, invoice.value)
                && r.value.value.paymentHash !in old(db.sentOffers)
                && db.sentOffers == old(db.sentOffers)[r.value.value.paymentHash := r.value.value]
      ensures r.Raised? || r.value.None? ==> db.sentOffers == old(db.sentOffers)
      ensures r == Returned(None) <==> h !in db.squeaks || db.squeaks[h].secretKey.None? || invoice.Raised?
      ensures r.Raised? <==>
                && h in db.squeaks && db.squeaks[h].secretKey.Some? && invoice.Returned?
                && (old(db.writesLeft) == 0 || invoice.value.paymentHash in old(db.sentOffers))
    {
      if h !in db.squeaks || db.squeaks[h].secretKey.None? || invoice.Raised? {
        return Returned(None);
      }
      var offer := CreateOffer(db.squeaks[h].squeak, nonce, peer, priceMsat, invoice.value);
      var saved := db.InsertSentOffer(offer);
      if saved.Raised? {
        return Raised;
      }
      return Returned(Some(offer));
    }

    /** Unpacks a peer's offer for a squeak and stores it as unpaid, unless its payment hash is already known. */
    method HandleOffer(squeak: Squeak, offer: Offer, payReq: PayReq, peer: PeerAddress) returns (r: Outcome<()>)
      requires Sane()
      modifies db`writesLeft, db`receivedOffers
      ensures Sane()
      ensures var unpacked := UnpackOffer(squeak, offer, payReq, peer, false);
              if r.Returned? && payReq.paymentHash !in old(db.receivedOffers) then
                && unpacked.Returned?
                && db.receivedOffers == old(db.receivedOffers)[payReq.paymentHash := ReceivedOfferRow(unpacked.value, db.nowMs)]
              else
                db.receivedOffers == old(db.receivedOffers)
      ensures r.Raised? <==> squeak.hash != offer.squeakHash || old(db.writesLeft) == 0
      ensures db.writesLeft == if r.Returned? then old(db.writesLeft) - 1 else old(db.writesLeft)
    {
      var unpacked := UnpackOffer(squeak, offer, payReq, peer, false);
      if unpacked.Raised? {
        return Raised;
      }
      var inserted := db.InsertReceivedOffer(unpacked.value);
      return if inserted.Raised? then Raised else Returned(());
    }

    /**
     The retention loop. A run leaves exactly the squeaks that are young, liked or the node's own; a run cut
     short has deleted only squeaks that were none of these. `order` is the order in which the database
     visits its rows.
     */
    method DeleteOldSqueaks(order: seq<Hash>) returns (r: Outcome<()>)
      requires UniquePublicKeys(db.profiles) && IsRowOrder(order, db.squeaks)
      modifies db`writesLeft, db`squeaks
      ensures IsRetentionRun(old(db.squeaks), db.squeaks, db.profiles, db.nowMs, squeakRetentionS, old(db.writesLeft), r.Returned?)
      ensures r.Returned? ==> LeavesYoungLikedAndOwn(old(db.squeaks), db.squeaks, db.profiles, db.nowMs, squeakRetentionS)
    {
      var hashes := OldSqueaksToDelete(db.squeaks, db.profiles, order, db.nowMs, squeakRetentionS);
      ghost var was, writesLeft := db.squeaks, db.writesLeft;
      for i := 0 to |hashes|
        invariant db.squeaks == Without(was, hashes[..i]) && db.writesLeft == writesLeft - i
      {
        var deleted := db.DeleteSqueak(hashes[i]);
        if deleted.Raised? {
          RetentionRun(was, db.profiles, order, db.nowMs, squeakRetentionS, i, writesLeft);
          return Raised;
        }
        WithoutNext(was, hashes, i);
      }
      RetentionRun(was, db.profiles, order, db.nowMs, squeakRetentionS, |hashes|, writesLeft);
      return Returned(());
    }
  }
}
