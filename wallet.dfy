/**
 * The prepaid wallet of `backend/services/walletService.js`.
 *
 * Users live in one collection; each carries a single balance. A debit or a
 * credit checks the amount, resolves the user (provisioning a demo account
 * for an unknown identifier), checks sufficiency for a debit, and writes the
 * new balance; any failure inside the session leaves every balance as it was.
 *
 * `Resolve`, `Debit` and `Credit` specify the operations as transitions of
 * the account list; the methods of `UserStore` perform them step by step.
 */
module Wallet {
  import opened Wrappers

  /** Starting balance of a provisioned account: 50000 rupees, in paise. */
  const DefaultBalance: int := 50000 * 100

  /** A user document, reduced to what the wallet reads and writes. */
  datatype Account = Account(id: string, name: string, email: string, walletBalance: int)

  datatype WalletError = InvalidAmount | InsufficientBalance(available: int, required: int)

  /** What `deductBalance` reports on success. */
  datatype DebitReceipt = DebitReceipt(userId: string, deductedAmount: int, remainingBalance: int)

  /** What `addBalance` reports on success. */
  datatype CreditReceipt = CreditReceipt(userId: string, addedAmount: int, newBalance: int)

  /** What `getWalletBalance` reports. */
  datatype BalanceInfo = BalanceInfo(userId: string, balance: int)

  predicate IsHexDigit(c: char) {
    '0' <= c <= '9' || 'a' <= c <= 'f' || 'A' <= c <= 'F'
  }

  /** Is every character of `s` a hexadecimal digit? */
  predicate AllHex(s: string) {
    s == [] || (IsHexDigit(s[0]) && AllHex(s[1..]))
  }

  /** The shape `ObjectId.isValid` accepts for a string id: 24 hexadecimal digits. */
  predicate IsObjectId(s: string) {
    |s| == 24 && AllHex(s)
  }

  /** The e-mail of the demo account that an external identifier maps to. */
  function FallbackEmail(userId: string): (e: string)
    ensures |e| == |userId| + 12 && e[..|userId|] == userId && e[|userId|..] == "@example.com"
  {
    userId + "@example.com"
  }

  function LowerHex(c: char): char {
    if 'A' <= c <= 'F' then (c as int + 32) as char else c
  }

  /** `s` with every upper-case hex digit written in lower case. */
  function LowerHexDigits(s: string): (t: string)
    ensures |t| == |s|
  {
    if s == [] then [] else [LowerHex(s[0])] + LowerHexDigits(s[1..])
  }

  /**
   * The value an id stands for: its text with hex digits read in either case.
   * `findById` casts a 24-hex-digit string to the 12 bytes it spells, so the
   * case of its digits does not matter; an id whose key is such a string
   * spells one itself, so `Lookup` matches exactly the ids that cast does.
   */
  function IdKey(s: string): (key: string)
    ensures |key| == |s|
  {
    LowerHexDigits(s)
  }

  /** Do two ids name the same document? */
  predicate SameId(a: string, b: string) {
    IdKey(a) == IdKey(b)
  }

  /** Is some account stored under `id`? */
  predicate IdUsed(accounts: seq<Account>, id: string) {
    exists k | 0 <= k < |accounts| :: SameId(accounts[k].id, id)
  }

  /** The `_id` primary key: no two accounts share an id. */
  predicate UniqueIds(accounts: seq<Account>) {
    forall j, k | 0 <= j < k < |accounts| :: !SameId(accounts[j].id, accounts[k].id)
  }

  /** `findById`: the first account stored under `id`, hex digits matched in either case. */
  function FindById(accounts: seq<Account>, id: string): (r: Option<nat>)
    ensures r.Some? ==> r.value < |accounts| && SameId(accounts[r.value].id, id)
                        && forall k | 0 <= k < r.value :: !SameId(accounts[k].id, id)
    ensures r.None? <==> !IdUsed(accounts, id)
  {
    if accounts == [] then None
    else if SameId(accounts[0].id, id) then Some(0)
    else match FindById(accounts[1..], id)
      case None => None
      case Some(k) => Some(k + 1)
  }

  /** `findOne({ email })`: the first account with that e-mail. */
  function FindByEmail(accounts: seq<Account>, email: string): (r: Option<nat>)
    ensures r.Some? ==> r.value < |accounts| && accounts[r.value].email == email
                        && forall k | 0 <= k < r.value :: accounts[k].email != email
    ensures r.None? <==> forall k | 0 <= k < |accounts| :: accounts[k].email != email
  {
    if accounts == [] then None
    else if accounts[0].email == email then Some(0)
    else match FindByEmail(accounts[1..], email)
      case None => None
      case Some(k) => Some(k + 1)
  }

  /** The account `resolveUser` finds without creating one: by id first, then by fallback e-mail. */
  function Lookup(accounts: seq<Account>, userId: string): (r: Option<nat>)
    ensures r.Some? ==> r.value < |accounts|
    ensures IsObjectId(userId) && IdUsed(accounts, userId) ==> r.Some? && SameId(accounts[r.value].id, userId)
    ensures !(IsObjectId(userId) && IdUsed(accounts, userId)) ==> r == FindByEmail(accounts, FallbackEmail(userId))
  {
    if IsObjectId(userId) && FindById(accounts, userId).Some? then FindById(accounts, userId)
    else FindByEmail(accounts, FallbackEmail(userId))
  }

  /** The demo account created for an unknown identifier, stored under `freshId`. */
  function Provisioned(userId: string, freshId: string): (a: Account)
    ensures a.email == FallbackEmail(userId) && a.walletBalance == DefaultBalance && a.id == freshId
  {
    Account(freshId, "Test User " + userId, FallbackEmail(userId), DefaultBalance)
  }

  /**
   * `resolveUser` as a transition: the accounts afterwards and the index of
   * the resolved account. A known user is returned as is; otherwise a demo
   * account is appended.
   */
  function Resolve(accounts: seq<Account>, userId: string, freshId: string): (r: (seq<Account>, nat))
    ensures r.1 < |r.0|
    ensures Lookup(accounts, userId).Some? ==> r == (accounts, Lookup(accounts, userId).value)
    ensures Lookup(accounts, userId).None? ==>
      r == (accounts + [Provisioned(userId, freshId)], |accounts|)
  {
    match Lookup(accounts, userId)
    case Some(k) => (accounts, k)
    case None => (accounts + [Provisioned(userId, freshId)], |accounts|)
  }

  /** `deductBalance` as a transition: the accounts afterwards and the reported outcome. */
  function Debit(accounts: seq<Account>, userId: string, amount: int, freshId: string)
    : (r: (seq<Account>, Result<DebitReceipt, WalletError>))
  {
    if amount <= 0 then (accounts, Failure(InvalidAmount))
    else
      var (resolved, k) := Resolve(accounts, userId, freshId);
      var balance := resolved[k].walletBalance;
      if balance < amount then (resolved, Failure(InsufficientBalance(balance, amount)))
      else (resolved[k := resolved[k].(walletBalance := balance - amount)],
            Success(DebitReceipt(resolved[k].id, amount, balance - amount)))
  }

  /** `addBalance` as a transition: the accounts afterwards and the reported outcome. */
  function Credit(accounts: seq<Account>, userId: string, amount: int, freshId: string)
    : (r: (seq<Account>, Result<CreditReceipt, WalletError>))
  {
    if amount <= 0 then (accounts, Failure(InvalidAmount))
    else
      var (resolved, k) := Resolve(accounts, userId, freshId);
      var balance := resolved[k].walletBalance;
      (resolved[k := resolved[k].(walletBalance := balance + amount)],
       Success(CreditReceipt(resolved[k].id, amount, balance + amount)))
  }

  /** `hasSufficientBalance` as a transition: the accounts afterwards and the answer. */
  function Sufficient(accounts: seq<Account>, userId: string, amount: int, freshId: string): (r: (seq<Account>, bool))
  {
    var (resolved, k) := Resolve(accounts, userId, freshId);
    (resolved, resolved[k].walletBalance >= amount)
  }

  /** The `users` collection. */
  class UserStore {
    var accounts: seq<Account>

    ghost predicate Valid()
      reads this
    {
      UniqueIds(accounts)
    }

    constructor (initial: seq<Account>)
      requires UniqueIds(initial)
      ensures Valid() && accounts == initial
    {
      accounts := initial;
    }

    /** `resolveUser`: find the user or provision a demo account under the unused id `freshId`. */
    method ResolveUser(userId: string, freshId: string) returns (index: nat)
      requires Valid() && !IdUsed(accounts, freshId)
      modifies this
      ensures Valid()
      ensures (accounts, index) == Resolve(old(accounts), userId, freshId)
    {
      var found := Lookup(accounts, userId);
      if found.Some? {
        return found.value;
      }
      accounts := accounts + [Provisioned(userId, freshId)];
      index := |accounts| - 1;
    }

    /** `getWalletBalance`: the balance of the resolved user. */
    method GetWalletBalance(userId: string, freshId: string) returns (info: BalanceInfo)
      requires Valid() && !IdUsed(accounts, freshId)
      modifies this
      ensures Valid()
      ensures var (resolved, k) := Resolve(old(accounts), userId, freshId);
              accounts == resolved && info == BalanceInfo(resolved[k].id, resolved[k].walletBalance)
    {
      var k := ResolveUser(userId, freshId);
      info := BalanceInfo(accounts[k].id, accounts[k].walletBalance);
    }

    /**
     * `deductBalance`: reject a non-positive amount before anything else,
     * resolve the user, reject an insufficient balance, then subtract.
     */
    method DeductBalance(userId: string, amount: int, freshId: string)
      returns (r: Result<DebitReceipt, WalletError>)
      requires Valid() && !IdUsed(accounts, freshId)
      modifies this
      ensures Valid()
      ensures (accounts, r) == Debit(old(accounts), userId, amount, freshId)
    {
      if amount <= 0 {
        return Failure(InvalidAmount);
      }
      var k := ResolveUser(userId, freshId);
      var user := accounts[k];
      if user.walletBalance < amount {
        // the session is aborted: no balance is written
        return Failure(InsufficientBalance(user.walletBalance, amount));
      }
      user := user.(walletBalance := user.walletBalance - amount);
      accounts := accounts[k := user];
      r := Success(DebitReceipt(user.id, amount, user.walletBalance));
    }

    /** `addBalance`: reject a non-positive amount, resolve the user, then add. */
    method AddBalance(userId: string, amount: int, freshId: string)
      returns (r: Result<CreditReceipt, WalletError>)
      requires Valid() && !IdUsed(accounts, freshId)
      modifies this
      ensures Valid()
      ensures (accounts, r) == Credit(old(accounts), userId, amount, freshId)
    {
      if amount <= 0 {
        return Failure(InvalidAmount);
      }
      var k := ResolveUser(userId, freshId);
      var user := accounts[k];
      user := user.(walletBalance := user.walletBalance + amount);
      accounts := accounts[k := user];
      r := Success(CreditReceipt(user.id, amount, user.walletBalance));
    }

    /** `hasSufficientBalance`: does the resolved user hold at least `amount`? */
    method HasSufficientBalance(userId: string, amount: int, freshId: string) returns (ok: bool)
      requires Valid() && !IdUsed(accounts, freshId)
      modifies this
      ensures Valid()
      ensures (accounts, ok) == Sufficient(old(accounts), userId, amount, freshId)
    {
      var k := ResolveUser(userId, freshId);
      ok := accounts[k].walletBalance >= amount;
    }
  }

  // ---------------------------------------------------------------------------
  // Properties of the wallet
  // ---------------------------------------------------------------------------

  /** Provisioning under an unused id keeps ids unique. */
  lemma ResolveKeepsUniqueIds(accounts: seq<Account>, userId: string, freshId: string)
    requires UniqueIds(accounts) && !IdUsed(accounts, freshId)
    ensures UniqueIds(Resolve(accounts, userId, freshId).0)
  {
  }

  /** A known user resolves to itself and nothing is created. */
  lemma ResolveExisting(accounts: seq<Account>, userId: string, freshId: string)
    requires IsObjectId(userId) && IdUsed(accounts, userId)
    ensures var (after, k) := Resolve(accounts, userId, freshId);
            after == accounts && SameId(accounts[k].id, userId)
  {
  }

  /**
   * An ObjectId written with its hex digits in another case names the same
   * stored account: it resolves to it, and a debit or a credit changes that
   * account exactly as the stored spelling would, without provisioning.
   */
  lemma ObjectIdCaseInsensitive(accounts: seq<Account>, id: string, other: string, amount: int, freshId: string)
    requires IsObjectId(id) && IdUsed(accounts, id)
    requires |other| == |id| && forall k | 0 <= k < |id| :: LowerHex(other[k]) == LowerHex(id[k])
    ensures Resolve(accounts, other, freshId) == Resolve(accounts, id, freshId)
    ensures Resolve(accounts, other, freshId).0 == accounts
    ensures Debit(accounts, other, amount, freshId) == Debit(accounts, id, amount, freshId)
    ensures Credit(accounts, other, amount, freshId) == Credit(accounts, id, amount, freshId)
  {
    CaseVariantSameId(id, other);
    FindByIdSameKey(accounts, other, id);
    assert FindById(accounts, id).Some?;
    assert Lookup(accounts, other) == Lookup(accounts, id);
  }

  /** Two spellings of an ObjectId that differ only in the case of hex digits name the same id. */
  lemma CaseVariantSameId(id: string, other: string)
    requires IsObjectId(id)
    requires |other| == |id| && forall k | 0 <= k < |id| :: LowerHex(other[k]) == LowerHex(id[k])
    ensures IsObjectId(other) && SameId(other, id)
  {
    CaseVariantDigits(id, other);
  }

  lemma {:induction false} CaseVariantDigits(s: string, t: string)
    requires AllHex(s)
    requires |t| == |s| && forall k | 0 <= k < |s| :: LowerHex(t[k]) == LowerHex(s[k])
    ensures AllHex(t) && LowerHexDigits(t) == LowerHexDigits(s)
  {
    if s != [] {
      assert LowerHex(t[0]) == LowerHex(s[0]);
      CaseVariantDigits(s[1..], t[1..]);
    }
  }

  /** `findById` reads an id only through what it stands for. */
  lemma {:induction false} FindByIdSameKey(accounts: seq<Account>, a: string, b: string)
    requires SameId(a, b)
    ensures FindById(accounts, a) == FindById(accounts, b)
  {
    if accounts != [] {
      FindByIdSameKey(accounts[1..], a, b);
    }
  }

  /**
   * An identifier that is not a stored ObjectId resolves to the first account
   * carrying its fallback e-mail, when there is one, and creates nothing.
   */
  lemma ResolveFallbackExisting(accounts: seq<Account>, userId: string, freshId: string, k: nat)
    requires !(IsObjectId(userId) && IdUsed(accounts, userId))
    requires k < |accounts| && accounts[k].email == FallbackEmail(userId)
    requires forall j | 0 <= j < k :: accounts[j].email != FallbackEmail(userId)
    ensures Resolve(accounts, userId, freshId) == (accounts, k)
  {
    assert FindByEmail(accounts, FallbackEmail(userId)).Some?;
  }

  /**
   * Resolving twice with the same identifier creates at most one account:
   * the second call finds what the first one returned and changes nothing.
   */
  lemma {:induction false} ResolveIdempotent(accounts: seq<Account>, userId: string, freshId: string, freshId2: string)
    requires !IdUsed(accounts, freshId)
    ensures var (after, k) := Resolve(accounts, userId, freshId);
            Resolve(after, userId, freshId2) == (after, k)
  {
    var (after, k) := Resolve(accounts, userId, freshId);
    if Lookup(accounts, userId).None? {
      LookupAfterProvisioning(accounts, userId, freshId);
    }
  }

  /** After provisioning, the identifier looks up the new account. */
  lemma {:induction false} LookupAfterProvisioning(accounts: seq<Account>, userId: string, freshId: string)
    requires !IdUsed(accounts, freshId) && Lookup(accounts, userId).None?
    ensures Lookup(accounts + [Provisioned(userId, freshId)], userId) == Some(|accounts|)
  {
    var after := accounts + [Provisioned(userId, freshId)];
    FindByEmailAppend(accounts, Provisioned(userId, freshId), FallbackEmail(userId));
  }

  /** Searching by e-mail in an extended list finds the old match, or else the new account. */
  lemma {:induction false} FindByEmailAppend(accounts: seq<Account>, a: Account, email: string)
    ensures FindByEmail(accounts + [a], email)
         == if FindByEmail(accounts, email).Some? then FindByEmail(accounts, email)
            else if a.email == email then Some(|accounts|) else None
  {
    if accounts != [] {
      assert (accounts + [a])[1..] == accounts[1..] + [a];
      FindByEmailAppend(accounts[1..], a, email);
    }
  }

  /** Lookups read ids and e-mails only, so balance writes never change them. */
  lemma {:induction false} LookupIgnoresBalance(accounts: seq<Account>, k: nat, balance: int, userId: string)
    requires k < |accounts|
    ensures Lookup(accounts[k := accounts[k].(walletBalance := balance)], userId) == Lookup(accounts, userId)
  {
    var after := accounts[k := accounts[k].(walletBalance := balance)];
    FindByIdIgnoresBalance(accounts, k, balance, userId);
    FindByEmailIgnoresBalance(accounts, k, balance, FallbackEmail(userId));
  }

  lemma {:induction false} FindByIdIgnoresBalance(accounts: seq<Account>, k: nat, balance: int, id: string)
    requires k < |accounts|
    ensures FindById(accounts[k := accounts[k].(walletBalance := balance)], id) == FindById(accounts, id)
  {
    if k > 0 {
      assert accounts[k := accounts[k].(walletBalance := balance)][1..]
          == accounts[1..][k - 1 := accounts[1..][k - 1].(walletBalance := balance)];
      FindByIdIgnoresBalance(accounts[1..], k - 1, balance, id);
    } else {
      assert accounts[k := accounts[k].(walletBalance := balance)][1..] == accounts[1..];
    }
  }

  lemma {:induction false} FindByEmailIgnoresBalance(accounts: seq<Account>, k: nat, balance: int, email: string)
    requires k < |accounts|
    ensures FindByEmail(accounts[k := accounts[k].(walletBalance := balance)], email) == FindByEmail(accounts, email)
  {
    if k > 0 {
      assert accounts[k := accounts[k].(walletBalance := balance)][1..]
          == accounts[1..][k - 1 := accounts[1..][k - 1].(walletBalance := balance)];
      FindByEmailIgnoresBalance(accounts[1..], k - 1, balance, email);
    } else {
      assert accounts[k := accounts[k].(walletBalance := balance)][1..] == accounts[1..];
    }
  }

  /** A non-positive amount is rejected before any lookup or provisioning. */
  lemma NonPositiveRejectedFirst(accounts: seq<Account>, userId: string, amount: int, freshId: string)
    requires amount <= 0
    ensures Debit(accounts, userId, amount, freshId) == (accounts, Failure(InvalidAmount))
    ensures Credit(accounts, userId, amount, freshId) == (accounts, Failure(InvalidAmount))
  {
  }

  /**
   * A debit fails for lack of funds exactly when the resolved balance is below
   * the amount; then no balance changes (only a provisioned account remains).
   */
  lemma DebitFailsIff(accounts: seq<Account>, userId: string, amount: int, freshId: string)
    requires amount > 0
    ensures var (resolved, k) := Resolve(accounts, userId, freshId);
            var (after, r) := Debit(accounts, userId, amount, freshId);
            (r.Failure? <==> resolved[k].walletBalance < amount)
            && (r.Failure? ==> after == resolved && r.error == InsufficientBalance(resolved[k].walletBalance, amount))
  {
  }

  /**
   * A successful debit lowers exactly the resolved account by `amount`, keeps
   * a non-negative balance non-negative, and reports the new balance.
   */
  lemma DebitSuccess(accounts: seq<Account>, userId: string, amount: int, freshId: string)
    requires Debit(accounts, userId, amount, freshId).1.Success?
    ensures var (resolved, k) := Resolve(accounts, userId, freshId);
            var (after, r) := Debit(accounts, userId, amount, freshId);
            |after| == |resolved|
            && after[k].walletBalance == resolved[k].walletBalance - amount
            && (resolved[k].walletBalance >= 0 ==> after[k].walletBalance >= 0)
            && r.value.remainingBalance == after[k].walletBalance
            && (forall j | 0 <= j < |after| && j != k :: after[j] == resolved[j])
  {
  }

  /** A successful credit raises exactly the resolved account by `amount` and reports the new balance. */
  lemma CreditSuccess(accounts: seq<Account>, userId: string, amount: int, freshId: string)
    requires amount > 0
    ensures var (resolved, k) := Resolve(accounts, userId, freshId);
            var (after, r) := Credit(accounts, userId, amount, freshId);
            r.Success? && |after| == |resolved|
            && after[k].walletBalance == resolved[k].walletBalance + amount
            && r.value.newBalance == after[k].walletBalance
            && (forall j | 0 <= j < |after| && j != k :: after[j] == resolved[j])
  {
  }

  /** `hasSufficientBalance` answers yes exactly when a debit of a positive amount would succeed. */
  lemma SufficientMatchesDebit(accounts: seq<Account>, userId: string, amount: int, freshId: string)
    requires amount > 0
    ensures Sufficient(accounts, userId, amount, freshId).1 <==> Debit(accounts, userId, amount, freshId).1.Success?
  {
  }

  /** A debit followed by a credit of the same amount restores every balance. */
  lemma {:induction false} DebitThenCreditRestores(accounts: seq<Account>, userId: string, amount: int,
                                                   freshId: string, freshId2: string)
    requires !IdUsed(accounts, freshId)
    requires Debit(accounts, userId, amount, freshId).1.Success?
    ensures Credit(Debit(accounts, userId, amount, freshId).0, userId, amount, freshId2).0
         == Resolve(accounts, userId, freshId).0
  {
    var (resolved, k) := Resolve(accounts, userId, freshId);
    var after := Debit(accounts, userId, amount, freshId).0;
    assert after == resolved[k := resolved[k].(walletBalance := resolved[k].walletBalance - amount)];
    ResolveIdempotent(accounts, userId, freshId, freshId2);
    assert Lookup(resolved, userId) == Some(k);
    LookupIgnoresBalance(resolved, k, resolved[k].walletBalance - amount, userId);
    CreditFound(after, userId, amount, freshId2, k);
    assert after[k := after[k].(walletBalance := after[k].walletBalance + amount)] == resolved;
  }

  /** A credit to an identifier that is already found raises that account and adds none. */
  lemma CreditFound(accounts: seq<Account>, userId: string, amount: int, freshId: string, k: nat)
    requires amount > 0 && Lookup(accounts, userId) == Some(k)
    ensures Credit(accounts, userId, amount, freshId).0
         == accounts[k := accounts[k].(walletBalance := accounts[k].walletBalance + amount)]
  {
  }
}
