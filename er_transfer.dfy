/**
 The `er_transfer` program: a ledger of one `Balance { balance: u64 }` account
 per owner, the `initialize` instruction that opens an owner's account at 0,
 and the `transfer` instruction that moves an amount from the signer's account
 to a receiver's account, opening the receiver's account if it is missing.

 Each account lives at an address derived from its owner's key alone; that
 derivation is injective, so the ledger is keyed by the owner directly.
 */
module ErTransfer {
  import opened Totals

  /** Every way an instruction can fail; a failed instruction changes nothing. */
  datatype Error =
    | InsufficientBalance    // the program's own error code
    | AccountNotInitialized  // the payer has no balance account to load
    | AccountAlreadyInUse    // `init` on an owner that already has an account
    | ArithmeticOverflow     // the receiver's `+=` leaves the u64 range

  /** What an instruction does to the ledger: the new ledger, or the error that reverts it. */
  datatype Outcome = Ok(balances: map<Pubkey, u64>) | Err(error: Error)

  /** What the caller of an instruction sees. */
  datatype Status = Success | Failure(error: Error)

  function StatusOf(o: Outcome): Status
  {
    match o
    case Ok(_) => Success
    case Err(e) => Failure(e)
  }

  /**
   The receiver's balance as `transfer` sees it: the stored one, or 0 for an
   account that `init_if_needed` opens during the instruction.
   */
  function ReceiverBalance(m: map<Pubkey, u64>, receiver: Pubkey): u64
  {
    if receiver in m then m[receiver] else 0
  }

  /** `initialize`: open `user`'s account holding 0; fails if it already exists. */
  function ApplyInitialize(m: map<Pubkey, u64>, user: Pubkey): (r: Outcome)
    ensures r.Err? <==> user in m
    ensures r.Err? ==> r.error == AccountAlreadyInUse
    ensures r.Ok? ==> r.balances.Keys == m.Keys + {user} && r.balances[user] == 0
    ensures r.Ok? ==> forall k :: k in m ==> r.balances[k] == m[k]
  {
    if user in m then Err(AccountAlreadyInUse) else Ok(m[user := 0])
  }

  /**
   `transfer` between two distinct owners: the payer's account must exist and
   hold at least `amount`; the receiver's account is opened at 0 if missing;
   then the payer is debited and the receiver credited.
   */
  function ApplyTransfer(m: map<Pubkey, u64>, payer: Pubkey, receiver: Pubkey, amount: u64): (r: Outcome)
    requires payer != receiver
    ensures r == Err(AccountNotInitialized) <==> payer !in m
    ensures r == Err(InsufficientBalance) <==> payer in m && m[payer] < amount
    ensures r == Err(ArithmeticOverflow) <==>
      payer in m && amount <= m[payer] && ReceiverBalance(m, receiver) as int + amount as int > U64_MAX
    ensures r.Ok? <==>
      payer in m && amount <= m[payer] && ReceiverBalance(m, receiver) as int + amount as int <= U64_MAX
    ensures r.Ok? ==> r.balances.Keys == m.Keys + {receiver}
    ensures r.Ok? ==> r.balances[payer] as int == m[payer] as int - amount as int
    ensures r.Ok? ==> r.balances[receiver] as int == ReceiverBalance(m, receiver) as int + amount as int
    ensures r.Ok? ==> forall k :: k in m && k != payer && k != receiver ==> r.balances[k] == m[k]
  {
    if payer !in m then Err(AccountNotInitialized)
    else
      var receiverBalance := ReceiverBalance(m, receiver);
      if m[payer] < amount then Err(InsufficientBalance)
      else if receiverBalance as int + amount as int > U64_MAX then Err(ArithmeticOverflow)
      else Ok(m[payer := m[payer] - amount][receiver := receiverBalance + amount])
  }

  /** Opening an account does not change the total held by the ledger. */
  lemma InitializeConserves(m: map<Pubkey, u64>, user: Pubkey)
    requires ApplyInitialize(m, user).Ok?
    ensures Total(ApplyInitialize(m, user).balances) == Total(m)
  {
    TotalInsert(m, user, 0);
  }

  /** A successful transfer between distinct owners keeps the total unchanged. */
  lemma TransferConserves(m: map<Pubkey, u64>, payer: Pubkey, receiver: Pubkey, amount: u64)
    requires payer != receiver
    requires ApplyTransfer(m, payer, receiver, amount).Ok?
    ensures Total(ApplyTransfer(m, payer, receiver, amount).balances) == Total(m)
  {
    var debited := m[payer := m[payer] - amount];
    TotalUpdate(m, payer, m[payer] - amount);
    var receiverBalance := ReceiverBalance(m, receiver);
    if receiver in m {
      TotalUpdate(debited, receiver, receiverBalance + amount);
    } else {
      TotalInsert(debited, receiver, amount);
    }
  }

  /**
   A successful transfer keeps the sum of the two balances it touches: what
   leaves the payer arrives at the receiver.
   */
  lemma TransferPairConserves(m: map<Pubkey, u64>, payer: Pubkey, receiver: Pubkey, amount: u64)
    requires payer != receiver
    requires ApplyTransfer(m, payer, receiver, amount).Ok?
    ensures var after := ApplyTransfer(m, payer, receiver, amount).balances;
      after[payer] as int + after[receiver] as int == m[payer] as int + ReceiverBalance(m, receiver) as int
  {
  }

  /**
   While the ledger's total fits in a u64, the receiver's `+=` can never
   overflow: the payer's balance and the receiver's are both part of it.
   */
  lemma TransferNeverOverflows(m: map<Pubkey, u64>, payer: Pubkey, receiver: Pubkey, amount: u64)
    requires payer != receiver
    requires Total(m) <= U64_MAX
    ensures ApplyTransfer(m, payer, receiver, amount) != Err(ArithmeticOverflow)
  {
    if payer in m && amount <= m[payer] {
      if receiver in m {
        TotalBoundsTwo(m, payer, receiver);
      } else {
        TotalBoundsOne(m, payer);
      }
    }
  }

  /** One call of an instruction handler, with its accounts and arguments. */
  datatype Instruction =
    | Initialize(user: Pubkey)
    | Transfer(payer: Pubkey, receiver: Pubkey, amount: u64)

  /** The model covers transfers between distinct owners only. */
  predicate Modelled(ix: Instruction)
  {
    ix.Transfer? ==> ix.payer != ix.receiver
  }

  predicate AllModelled(ixs: seq<Instruction>)
  {
    forall i :: 0 <= i < |ixs| ==> Modelled(ixs[i])
  }

  function Apply(m: map<Pubkey, u64>, ix: Instruction): Outcome
    requires Modelled(ix)
  {
    match ix
    case Initialize(user) => ApplyInitialize(m, user)
    case Transfer(payer, receiver, amount) => ApplyTransfer(m, payer, receiver, amount)
  }

  /** The ledger after one instruction: a failed instruction is reverted as a whole. */
  function Step(m: map<Pubkey, u64>, ix: Instruction): map<Pubkey, u64>
    requires Modelled(ix)
  {
    var r := Apply(m, ix);
    if r.Ok? then r.balances else m
  }

  /** The ledger after a sequence of instructions, each applied in order. */
  function Run(m: map<Pubkey, u64>, ixs: seq<Instruction>): map<Pubkey, u64>
    requires AllModelled(ixs)
    decreases |ixs|
  {
    if ixs == [] then m else Run(Step(m, ixs[0]), ixs[1..])
  }

  /** No instruction creates or destroys value: one step keeps the total. */
  lemma StepConserves(m: map<Pubkey, u64>, ix: Instruction)
    requires Modelled(ix)
    ensures Total(Step(m, ix)) == Total(m)
  {
    match ix
    case Initialize(user) =>
      if ApplyInitialize(m, user).Ok? { InitializeConserves(m, user); }
    case Transfer(payer, receiver, amount) =>
      if ApplyTransfer(m, payer, receiver, amount).Ok? { TransferConserves(m, payer, receiver, amount); }
  }

  /** Any sequence of instructions keeps the total. */
  lemma {:induction false} RunConserves(m: map<Pubkey, u64>, ixs: seq<Instruction>)
    requires AllModelled(ixs)
    ensures Total(Run(m, ixs)) == Total(m)
    decreases |ixs|
  {
    if ixs != [] {
      StepConserves(m, ixs[0]);
      RunConserves(Step(m, ixs[0]), ixs[1..]);
    }
  }

  /**
   Since `initialize` opens accounts at 0 and `transfer` only moves value,
   every account of a ledger built from nothing holds 0.
   */
  lemma FromEmptyAllZero(ixs: seq<Instruction>)
    requires AllModelled(ixs)
    ensures forall k :: k in Run(map[], ixs) ==> Run(map[], ixs)[k] == 0
  {
    AllZeroTotalZero(map[]);
    RunConserves(map[], ixs);
    ZeroTotalAllZero(Run(map[], ixs));
  }

  /**
   Consequently, on a ledger built from nothing, every transfer of a positive
   amount fails: the payer either has no account or holds too little.
   */
  lemma FromEmptyTransferFails(ixs: seq<Instruction>, payer: Pubkey, receiver: Pubkey, amount: u64)
    requires AllModelled(ixs)
    requires payer != receiver && amount > 0
    ensures var r := ApplyTransfer(Run(map[], ixs), payer, receiver, amount);
      r == Err(AccountNotInitialized) || r == Err(InsufficientBalance)
  {
    FromEmptyAllZero(ixs);
  }

  /**
   The integration test's scenario: the wallet and Bob each initialize, then
   the wallet transfers 1 to Bob; that transfer is rejected.
   */
  lemma TestScenarioTransferRejected(wallet: Pubkey, bob: Pubkey)
    requires wallet != bob
    ensures var ixs := [Initialize(wallet), Initialize(bob)];
      AllModelled(ixs) &&
      ApplyTransfer(Run(map[], ixs), wallet, bob, 1) == Err(InsufficientBalance)
  {
    var ixs := [Initialize(wallet), Initialize(bob)];
    assert AllModelled(ixs);
    var first := Step(map[], ixs[0]);
    assert wallet in first;
    assert ixs[1..][0] == ixs[1] && ixs[1..][1..] == [];
    var second := Step(first, ixs[1]);
    assert wallet in second;
    assert Run(map[], ixs) == Run(first, ixs[1..]) == Run(second, []) == second;
    FromEmptyAllZero(ixs);
  }

  /**
   The program's state: every balance account there is, keyed by its owner.
   `Initialize` and `Transfer` are the two instruction handlers; each loads
   its accounts, updates the loaded copies, and stores them back only when
   the handler succeeds.
   */
  class Ledger {
    var balances: map<Pubkey, u64>

    /** A ledger in which no owner has an account yet. */
    constructor ()
      ensures balances == map[]
    {
      balances := map[];
    }

    method Initialize(user: Pubkey) returns (status: Status)
      modifies this
      ensures status == StatusOf(ApplyInitialize(old(balances), user))
      ensures balances == Step(old(balances), Instruction.Initialize(user))
      ensures status == Success <==> user !in old(balances)
      ensures status.Success? ==> balances == old(balances)[user := 0]
      ensures status.Failure? ==> status.error == AccountAlreadyInUse && balances == old(balances)
      ensures Total(balances) == Total(old(balances))
    {
      if user in balances {
        return Failure(AccountAlreadyInUse);
      }
      var balance: u64 := 0;
      balances := balances[user := balance];
      InitializeConserves(old(balances), user);
      return Success;
    }

    method Transfer(payer: Pubkey, receiver: Pubkey, amount: u64) returns (status: Status)
      requires payer != receiver
      modifies this
      ensures status == StatusOf(ApplyTransfer(old(balances), payer, receiver, amount))
      ensures balances == Step(old(balances), Instruction.Transfer(payer, receiver, amount))
      ensures status == Success <==>
        && payer in old(balances) && amount <= old(balances)[payer]
        && ReceiverBalance(old(balances), receiver) as int + amount as int <= U64_MAX
      ensures status.Failure? ==> balances == old(balances)
      ensures status.Success? ==>
        && balances[payer] as int == old(balances)[payer] as int - amount as int
        && balances[receiver] as int == ReceiverBalance(old(balances), receiver) as int + amount as int
        && balances.Keys == old(balances).Keys + {receiver}
        && forall k :: k in old(balances) && k != payer && k != receiver ==> balances[k] == old(balances)[k]
      ensures Total(balances) == Total(old(balances))
      ensures Total(old(balances)) <= U64_MAX ==> status != Failure(ArithmeticOverflow)
    {
      if Total(balances) <= U64_MAX {
        TransferNeverOverflows(balances, payer, receiver, amount);
      }
      if payer !in balances {
        return Failure(AccountNotInitialized);
      }
      var balance := balances[payer];
      var receiverBalance := ReceiverBalance(balances, receiver);
      if balance < amount {
        return Failure(InsufficientBalance);
      }
      balance := balance - amount;
      if receiverBalance as int + amount as int > U64_MAX {
        return Failure(ArithmeticOverflow);
      }
      receiverBalance := receiverBalance + amount;
      balances := balances[payer := balance][receiver := receiverBalance];
      TransferConserves(old(balances), payer, receiver, amount);
      return Success;
    }
  }
}
