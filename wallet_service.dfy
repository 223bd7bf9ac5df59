/**
 * The wallet directory: one custodial wallet per family and per child,
 * created on first request and returned unchanged afterwards, and the
 * key-free listing shown to parents.
 */
module WalletService {
  import opened Wrappers
  import opened Schema
  import opened Store

  /**
   * A freshly generated key pair, already encrypted. Key generation and
   * encryption are outside the model: the caller supplies their outcome.
   */
  datatype GeneratedWallet = GeneratedWallet(address: Address, encryptedKey: string, encryptionIV: string, encryptionTag: string)

  /** The wallet table after asking for `owner`'s wallet, and the address returned. */
  datatype Ensured = Ensured(wallets: seq<Wallet>, address: Address)

  /**
   * Check-then-create: the existing row's address when `owner` has a wallet,
   * otherwise a new row built from `generated`.
   */
  function EnsureWallet(ws: seq<Wallet>, owner: Owner, generated: GeneratedWallet): (e: Ensured)
    ensures FindWallet(ws, owner).Some? ==>
              e.wallets == ws && e.address == ws[FindWallet(ws, owner).value].address
    ensures FindWallet(ws, owner).None? ==>
              && e.wallets == ws + [Wallet(owner, generated.address, generated.encryptedKey,
                                           generated.encryptionIV, generated.encryptionTag)]
              && e.address == generated.address
    ensures exists i :: 0 <= i < |e.wallets| && e.wallets[i].owner == owner && e.wallets[i].address == e.address
  {
    match FindWallet(ws, owner)
    case Some(i) => Ensured(ws, ws[i].address)
    case None =>
      var row := Wallet(owner, generated.address, generated.encryptedKey, generated.encryptionIV, generated.encryptionTag);
      assert (ws + [row])[|ws|] == row;
      Ensured(ws + [row], generated.address)
  }

  /** The number of rows of `owner`. */
  function RowsOf(ws: seq<Wallet>, owner: Owner): (n: nat)
    ensures n <= |ws|
    ensures n == 0 <==> FindWallet(ws, owner).None?
  {
    if |ws| == 0 then 0
    else RowsOf(ws[..|ws| - 1], owner) + (if ws[|ws| - 1].owner == owner then 1 else 0)
  }

  lemma {:induction false} RowsOfUnique(ws: seq<Wallet>, owner: Owner)
    requires OwnersUnique(ws)
    ensures RowsOf(ws, owner) <= 1
  {
    if |ws| > 0 {
      var init := ws[..|ws| - 1];
      RowsOfUnique(init, owner);
      if ws[|ws| - 1].owner == owner {
        assert forall i :: 0 <= i < |init| ==> init[i].owner != owner;
      }
    }
  }

  /** Ensuring a wallet keeps owners unique. */
  lemma EnsurePreservesUnique(ws: seq<Wallet>, owner: Owner, generated: GeneratedWallet)
    requires OwnersUnique(ws)
    ensures OwnersUnique(EnsureWallet(ws, owner, generated).wallets)
  {
  }

  /**
   * Asking twice for one owner's wallet returns one address both times, and
   * the owner ends with exactly one row, whatever the second key generation
   * produced.
   */
  lemma EnsureTwice(ws: seq<Wallet>, owner: Owner, g1: GeneratedWallet, g2: GeneratedWallet)
    requires OwnersUnique(ws)
    ensures var first := EnsureWallet(ws, owner, g1);
            var second := EnsureWallet(first.wallets, owner, g2);
            && second.address == first.address
            && second.wallets == first.wallets
            && RowsOf(second.wallets, owner) == 1
  {
    var first := EnsureWallet(ws, owner, g1);
    assert FindWallet(first.wallets, owner).Some?;
    var i :| 0 <= i < |first.wallets| && first.wallets[i].owner == owner && first.wallets[i].address == first.address;
    var j := FindWallet(first.wallets, owner).value;
    EnsurePreservesUnique(ws, owner, g1);
    assert i == j;
    RowsOfUnique(first.wallets, owner);
  }

  method CreateWallet(db: Database, owner: Owner, generated: GeneratedWallet) returns (address: Address)
    requires db.Valid()
    modifies db`wallets
    ensures db.Valid()
    ensures EnsureWallet(old(db.wallets), owner, generated) == Ensured(db.wallets, address)
  {
    var existing := FindWallet(db.wallets, owner);
    if existing.Some? {
      return db.wallets[existing.value].address;
    }
    var row := Wallet(owner, generated.address, generated.encryptedKey, generated.encryptionIV, generated.encryptionTag);
    EnsurePreservesUnique(db.wallets, owner, generated);
    db.wallets := db.wallets + [row];
    address := row.address;
  }

  /** The family's wallet: the existing one, or a new one from `generated`. */
  method CreateFamilyWallet(db: Database, familyId: FamilyId, generated: GeneratedWallet) returns (address: Address)
    requires db.Valid()
    modifies db`wallets
    ensures db.Valid()
    ensures EnsureWallet(old(db.wallets), FamilyOwner(familyId), generated) == Ensured(db.wallets, address)
  {
    address := CreateWallet(db, FamilyOwner(familyId), generated);
  }

  /** The child's wallet: the existing one, or a new one from `generated`. */
  method CreateChildWallet(db: Database, childId: ChildId, generated: GeneratedWallet) returns (address: Address)
    requires db.Valid()
    modifies db`wallets
    ensures db.Valid()
    ensures EnsureWallet(old(db.wallets), ChildOwner(childId), generated) == Ensured(db.wallets, address)
  {
    address := CreateWallet(db, ChildOwner(childId), generated);
  }

  datatype OwnerType = FamilyWallet | ChildWallet

  /** What a parent sees of a wallet: no key material. */
  datatype WalletInfo = WalletInfo(address: Address, name: string, ownerType: OwnerType, ownerId: nat)

  /** The family name, or "Family" when the family has none on record. */
  function FamilyLabel(familyNames: map<FamilyId, string>, familyId: FamilyId): (name: string)
    ensures familyId in familyNames ==> name == familyNames[familyId]
    ensures familyId !in familyNames ==> name == "Family"
  {
    if familyId in familyNames then familyNames[familyId] else "Family"
  }

  /** The family wallet's entry, if the family has a wallet. */
  function FamilyEntry(wallets: seq<Wallet>, familyNames: map<FamilyId, string>, familyId: FamilyId): (r: seq<WalletInfo>)
  {
    match FindWallet(wallets, FamilyOwner(familyId))
    case Some(i) => [WalletInfo(wallets[i].address, FamilyLabel(familyNames, familyId), FamilyWallet, familyId)]
    case None => []
  }

  /** One entry per child among the first `n` that belongs to the family and has a wallet, in table order. */
  function ChildEntries(children: seq<Child>, wallets: seq<Wallet>, familyId: FamilyId, n: nat): (r: seq<WalletInfo>)
    requires n <= |children|
    ensures |r| <= n
    ensures forall k :: 0 <= k < |r| ==> r[k].ownerId < n
    ensures forall p, q :: 0 <= p < q < |r| ==> r[p].ownerId < r[q].ownerId
  {
    if n == 0 then []
    else
      var c := n - 1;
      var rest := ChildEntries(children, wallets, familyId, c);
      match FindWallet(wallets, ChildOwner(c))
      case Some(i) =>
        if children[c].familyId == familyId
        then rest + [WalletInfo(wallets[i].address, children[c].displayName, ChildWallet, c)]
        else rest
      case None => rest
  }

  /** The listing: the family wallet first, then the children's wallets. */
  function FamilyWallets(wallets: seq<Wallet>, familyNames: map<FamilyId, string>, children: seq<Child>,
                         familyId: FamilyId): seq<WalletInfo>
  {
    FamilyEntry(wallets, familyNames, familyId) + ChildEntries(children, wallets, familyId, |children|)
  }

  /**
   * The child entries among the first `n` children are exactly the children
   * of the family that have a wallet, each with its own address and name.
   */
  lemma {:induction false} ChildEntriesExact(children: seq<Child>, wallets: seq<Wallet>, familyId: FamilyId, n: nat, info: WalletInfo)
    requires n <= |children|
    ensures info in ChildEntries(children, wallets, familyId, n) <==>
              && info.ownerType == ChildWallet
              && info.ownerId < n
              && children[info.ownerId].familyId == familyId
              && FindWallet(wallets, ChildOwner(info.ownerId)).Some?
              && info.address == wallets[FindWallet(wallets, ChildOwner(info.ownerId)).value].address
              && info.name == children[info.ownerId].displayName
  {
    if n > 0 {
      ChildEntriesExact(children, wallets, familyId, n - 1, info);
    }
  }

  /** The family entry, when present, comes first and is the only family entry; every other entry is a child's. */
  lemma FamilyWalletsShape(wallets: seq<Wallet>, familyNames: map<FamilyId, string>, children: seq<Child>,
                           familyId: FamilyId)
    ensures var r := FamilyWallets(wallets, familyNames, children, familyId);
            && (FindWallet(wallets, FamilyOwner(familyId)).Some? <==> |r| > 0 && r[0].ownerType == FamilyWallet)
            && (FindWallet(wallets, FamilyOwner(familyId)).Some? ==>
                  r[0] == WalletInfo(wallets[FindWallet(wallets, FamilyOwner(familyId)).value].address,
                                     FamilyLabel(familyNames, familyId), FamilyWallet, familyId))
            && (forall k :: 0 < k < |r| ==> r[k].ownerType == ChildWallet)
  {
    var head := FamilyEntry(wallets, familyNames, familyId);
    var tail := ChildEntries(children, wallets, familyId, |children|);
    forall k | 0 <= k < |tail|
      ensures tail[k].ownerType == ChildWallet
    {
      ChildEntriesExact(children, wallets, familyId, |children|, tail[k]);
    }
    assert FamilyWallets(wallets, familyNames, children, familyId) == head + tail;
  }

  /** Lists the family's wallets: the family wallet, then each child's, in table order. Reads only. */
  method GetFamilyWallets(db: Database, familyId: FamilyId) returns (wallets: seq<WalletInfo>)
    ensures wallets == FamilyWallets(db.wallets, db.familyNames, db.children, familyId)
  {
    wallets := [];
    var familyWallet := FindWallet(db.wallets, FamilyOwner(familyId));
    if familyWallet.Some? {
      wallets := wallets + [WalletInfo(db.wallets[familyWallet.value].address, FamilyLabel(db.familyNames, familyId),
                                       FamilyWallet, familyId)];
    }
    var head := wallets;
    for c := 0 to |db.children|
      invariant wallets == head + ChildEntries(db.children, db.wallets, familyId, c)
    {
      var child := db.children[c];
      if child.familyId == familyId {
        var w := FindWallet(db.wallets, ChildOwner(c));
        if w.Some? {
          wallets := wallets + [WalletInfo(db.wallets[w.value].address, child.displayName, ChildWallet, c)];
        }
      }
    }
  }

  /** The child's wallet address, or None when the child has no wallet. Reads only. */
  function GetChildWalletAddress(db: Database, childId: ChildId): (r: Option<Address>)
    reads db
    ensures r.None? <==> forall i :: 0 <= i < |db.wallets| ==> db.wallets[i].owner != ChildOwner(childId)
    ensures r.Some? ==> exists i :: 0 <= i < |db.wallets| && db.wallets[i].owner == ChildOwner(childId) && db.wallets[i].address == r.value
  {
    match FindWallet(db.wallets, ChildOwner(childId))
    case Some(i) => Some(db.wallets[i].address)
    case None => None
  }
}
