/**
 * The one-off top-up script that brings on-chain balances up to the ledger:
 * for every child with a positive balance and a wallet it mints exactly the
 * shortfall, never burns a surplus, and carries on past a failed mint.
 */
module SyncBalances {
  import opened Wrappers
  import opened Schema
  import opened Store

  /** The script's three required settings, as read from the environment. */
  datatype ScriptEnv = ScriptEnv(contractAddress: Option<string>, serverKey: Option<string>, rpcUrl: Option<string>)

  predicate IsSet(v: Option<string>)
  {
    v.Some? && v.value != ""
  }

  predicate EnvComplete(env: ScriptEnv)
  {
    IsSet(env.contractAddress) && IsSet(env.serverKey) && IsSet(env.rpcUrl)
  }

  /** A child the script considers: a positive ledger balance and a wallet. */
  datatype Candidate = Candidate(childId: ChildId, displayName: string, address: Address, balance: nat)

  /** The candidates among the first `n` children, in table order. */
  function Candidates(children: seq<Child>, wallets: seq<Wallet>, n: nat): (cs: seq<Candidate>)
    requires n <= |children|
    ensures |cs| <= n
    ensures forall k :: 0 <= k < |cs| ==>
              && cs[k].childId < n
              && children[cs[k].childId].tokenBalance > 0
              && cs[k].balance == children[cs[k].childId].tokenBalance
              && cs[k].displayName == children[cs[k].childId].displayName
              && FindWallet(wallets, ChildOwner(cs[k].childId)).Some?
              && cs[k].address == wallets[FindWallet(wallets, ChildOwner(cs[k].childId)).value].address
    ensures forall p, q :: 0 <= p < q < |cs| ==> cs[p].childId < cs[q].childId
  {
    if n == 0 then []
    else
      var c := n - 1;
      var init := Candidates(children, wallets, c);
      var child := children[c];
      match FindWallet(wallets, ChildOwner(c))
      case Some(i) =>
        if child.tokenBalance > 0 then init + [Candidate(c, child.displayName, wallets[i].address, child.tokenBalance)]
        else init
      case None => init
  }

  /** Every child with a positive balance and a wallet is a candidate. */
  lemma {:induction false} CandidatesComplete(children: seq<Child>, wallets: seq<Wallet>, n: nat, c: ChildId)
    requires n <= |children| && c < n
    requires children[c].tokenBalance > 0 && FindWallet(wallets, ChildOwner(c)).Some?
    ensures exists k :: 0 <= k < |Candidates(children, wallets, n)| && Candidates(children, wallets, n)[k].childId == c
  {
    if c < n - 1 {
      CandidatesComplete(children, wallets, n - 1, c);
      var k :| 0 <= k < |Candidates(children, wallets, n - 1)| && Candidates(children, wallets, n - 1)[k].childId == c;
      assert Candidates(children, wallets, n)[k] == Candidates(children, wallets, n - 1)[k];
    } else {
      assert Candidates(children, wallets, n)[|Candidates(children, wallets, n)| - 1].childId == c;
    }
  }

  /** The on-chain token balances, by address; an unknown address holds nothing. */
  type Chain = map<Address, nat>

  function BalanceOf(chain: Chain, a: Address): nat
  {
    if a in chain then chain[a] else 0
  }

  /** What the script did for one candidate. */
  datatype Outcome =
    | AlreadySynced(childId: ChildId)
    | Minted(childId: ChildId, amount: nat)
    | MintFailed(childId: ChildId, amount: nat)

  /** The tokens to mint for a ledger balance of `db` when the chain holds `onChain`: the shortfall, or nothing. */
  function TopUp(onChain: nat, db: nat): (r: nat)
    ensures onChain >= db ==> r == 0
    ensures onChain < db ==> r > 0 && onChain + r == db
  {
    if onChain >= db then 0 else db - onChain
  }

  /** Handling one candidate whose balance read went through, given whether its mint would go through. */
  function Step(chain: Chain, c: Candidate, mintOk: bool): (r: (Outcome, Chain))
    ensures BalanceOf(chain, c.address) >= c.balance ==> r == (AlreadySynced(c.childId), chain)
    ensures BalanceOf(chain, c.address) < c.balance && mintOk ==>
              r == (Minted(c.childId, c.balance - BalanceOf(chain, c.address)), chain[c.address := c.balance])
    ensures BalanceOf(chain, c.address) < c.balance && !mintOk ==>
              r == (MintFailed(c.childId, c.balance - BalanceOf(chain, c.address)), chain)
  {
    var onChain := BalanceOf(chain, c.address);
    if onChain >= c.balance then (AlreadySynced(c.childId), chain)
    else
      var toMint := TopUp(onChain, c.balance);
      if mintOk then (Minted(c.childId, toMint), chain[c.address := onChain + toMint])
      else (MintFailed(c.childId, toMint), chain)
  }

  /** Where a run got to: the outcomes so far, the chain, and whether a balance read threw and ended it. */
  datatype RunState = RunState(outcomes: seq<Outcome>, chain: Chain, aborted: bool)

  /**
   * The state after the loop has reached the first `n` candidates;
   * `readOk(k)` says whether reading candidate k's on-chain balance goes
   * through and `mintOk(k)` whether its mint does. A mint that throws is
   * caught and the loop goes on; a read that throws ends the run.
   */
  function Run(cs: seq<Candidate>, chain: Chain, mintOk: nat -> bool, readOk: nat -> bool, n: nat): (r: RunState)
    requires n <= |cs|
    ensures |r.outcomes| <= n
    ensures !r.aborted ==> |r.outcomes| == n
    ensures r.aborted ==> |r.outcomes| < n && !readOk(|r.outcomes|)
    ensures forall k :: 0 <= k < |r.outcomes| ==> readOk(k)
    ensures !r.aborted <==> forall k :: 0 <= k < n ==> readOk(k)
  {
    if n == 0 then RunState([], chain, false)
    else
      var prev := Run(cs, chain, mintOk, readOk, n - 1);
      if prev.aborted then prev
      else if !readOk(n - 1) then prev.(aborted := true)
      else
        var step := Step(prev.chain, cs[n - 1], mintOk(n - 1));
        RunState(prev.outcomes + [step.0], step.1, false)
  }

  /** Once a read has thrown, the run stays where it stopped. */
  lemma {:induction false} RunAbortedStays(cs: seq<Candidate>, chain: Chain, mintOk: nat -> bool, readOk: nat -> bool, n: nat, m: nat)
    requires n <= m <= |cs|
    requires Run(cs, chain, mintOk, readOk, n).aborted
    ensures Run(cs, chain, mintOk, readOk, m) == Run(cs, chain, mintOk, readOk, n)
  {
    if m > n {
      RunAbortedStays(cs, chain, mintOk, readOk, n, m - 1);
    }
  }

  /** The script never lowers any on-chain balance. */
  lemma {:induction false} RunNeverBurns(cs: seq<Candidate>, chain: Chain, mintOk: nat -> bool, readOk: nat -> bool, n: nat, a: Address)
    requires n <= |cs|
    ensures BalanceOf(Run(cs, chain, mintOk, readOk, n).chain, a) >= BalanceOf(chain, a)
  {
    if n > 0 {
      RunNeverBurns(cs, chain, mintOk, readOk, n - 1, a);
    }
  }

  /** No address outside the candidates' wallets is touched. */
  lemma {:induction false} RunTouchesOnlyCandidates(cs: seq<Candidate>, chain: Chain, mintOk: nat -> bool, readOk: nat -> bool,
                                                    n: nat, a: Address)
    requires n <= |cs|
    requires forall k :: 0 <= k < n ==> cs[k].address != a
    ensures BalanceOf(Run(cs, chain, mintOk, readOk, n).chain, a) == BalanceOf(chain, a)
  {
    if n > 0 {
      RunTouchesOnlyCandidates(cs, chain, mintOk, readOk, n - 1, a);
    }
  }

  predicate DistinctAddresses(cs: seq<Candidate>)
  {
    forall p, q :: 0 <= p < q < |cs| ==> cs[p].address != cs[q].address
  }

  /**
   * What handling candidate `c` means, given what its address held before
   * (`before`) and after (`after`): an address holding at least the ledger
   * balance is skipped and left alone, otherwise exactly the shortfall is
   * minted, and a mint that goes through leaves the chain equal to the
   * ledger while a failed one leaves it as it was.
   */
  predicate HandledAsSpecified(c: Candidate, mintOk: bool, before: nat, o: Outcome, after: nat)
  {
    && (before >= c.balance ==> o == AlreadySynced(c.childId) && after == before)
    && (before < c.balance && mintOk ==> o == Minted(c.childId, c.balance - before) && after == c.balance)
    && (before < c.balance && !mintOk ==> o == MintFailed(c.childId, c.balance - before) && after == before)
  }

  /** A step touches its own candidate's address only. */
  lemma StepFrame(chain: Chain, c: Candidate, mintOk: bool, a: Address)
    requires a != c.address
    ensures BalanceOf(Step(chain, c, mintOk).1, a) == BalanceOf(chain, a)
  {
  }

  /** The candidate a run handled last was handled against the starting chain. */
  lemma LastStepOutcome(cs: seq<Candidate>, chain: Chain, mintOk: nat -> bool, readOk: nat -> bool, n: nat)
    requires 0 < n <= |cs| && DistinctAddresses(cs)
    requires !Run(cs, chain, mintOk, readOk, n).aborted
    ensures var r := Run(cs, chain, mintOk, readOk, n);
            HandledAsSpecified(cs[n - 1], mintOk(n - 1), BalanceOf(chain, cs[n - 1].address),
                               r.outcomes[n - 1], BalanceOf(r.chain, cs[n - 1].address))
  {
    var prev := Run(cs, chain, mintOk, readOk, n - 1);
    RunTouchesOnlyCandidates(cs, chain, mintOk, readOk, n - 1, cs[n - 1].address);
    assert BalanceOf(prev.chain, cs[n - 1].address) == BalanceOf(chain, cs[n - 1].address);
  }

  /**
   * With one wallet per candidate, each handled candidate's outcome is
   * decided by the starting chain, as HandledAsSpecified says. A failed mint
   * does not stop the run; only a failed read does.
   */
  lemma {:induction false} RunOutcomes(cs: seq<Candidate>, chain: Chain, mintOk: nat -> bool, readOk: nat -> bool, n: nat, k: nat)
    requires n <= |cs| && DistinctAddresses(cs)
    requires k < |Run(cs, chain, mintOk, readOk, n).outcomes|
    ensures var r := Run(cs, chain, mintOk, readOk, n);
            HandledAsSpecified(cs[k], mintOk(k), BalanceOf(chain, cs[k].address), r.outcomes[k], BalanceOf(r.chain, cs[k].address))
  {
    var prev := Run(cs, chain, mintOk, readOk, n - 1);
    var r := Run(cs, chain, mintOk, readOk, n);
    if prev.aborted || !readOk(n - 1) {
      assert r.outcomes == prev.outcomes && r.chain == prev.chain;
      RunOutcomes(cs, chain, mintOk, readOk, n - 1, k);
    } else {
      var step := Step(prev.chain, cs[n - 1], mintOk(n - 1));
      assert r == RunState(prev.outcomes + [step.0], step.1, false);
      if k == n - 1 {
        LastStepOutcome(cs, chain, mintOk, readOk, n);
      } else {
        RunOutcomes(cs, chain, mintOk, readOk, n - 1, k);
        assert r.outcomes[k] == prev.outcomes[k];
        StepFrame(prev.chain, cs[n - 1], mintOk(n - 1), cs[k].address);
      }
    }
  }

  /** After the script, no handled candidate whose mint went through, or was not needed, is short on chain. */
  lemma RunCatchesUp(cs: seq<Candidate>, chain: Chain, mintOk: nat -> bool, readOk: nat -> bool, k: nat)
    requires DistinctAddresses(cs) && k < |Run(cs, chain, mintOk, readOk, |cs|).outcomes|
    requires !Run(cs, chain, mintOk, readOk, |cs|).outcomes[k].MintFailed?
    ensures BalanceOf(Run(cs, chain, mintOk, readOk, |cs|).chain, cs[k].address) >= cs[k].balance
  {
    RunOutcomes(cs, chain, mintOk, readOk, |cs|, k);
  }

  /**
   * Handles every candidate in turn: reads its on-chain balance and mints the
   * shortfall, if any. A read that throws ends the loop.
   */
  method TopUpAll(cs: seq<Candidate>, chain: Chain, mintOk: nat -> bool, readOk: nat -> bool)
    returns (outcomes: seq<Outcome>, finalChain: Chain, aborted: bool)
    ensures RunState(outcomes, finalChain, aborted) == Run(cs, chain, mintOk, readOk, |cs|)
  {
    outcomes := [];
    finalChain := chain;
    aborted := false;
    for i := 0 to |cs|
      invariant RunState(outcomes, finalChain, false) == Run(cs, chain, mintOk, readOk, i)
    {
      var c := cs[i];
      if !readOk(i) {
        RunAbortedStays(cs, chain, mintOk, readOk, i + 1, |cs|);
        return outcomes, finalChain, true;
      }
      var onChainBalance := BalanceOf(finalChain, c.address);
      if onChainBalance >= c.balance {
        outcomes := outcomes + [AlreadySynced(c.childId)];
      } else {
        var toMint := c.balance - onChainBalance;
        if mintOk(i) {
          finalChain := finalChain[c.address := onChainBalance + toMint];
          outcomes := outcomes + [Minted(c.childId, toMint)];
        } else {
          outcomes := outcomes + [MintFailed(c.childId, toMint)];
        }
      }
    }
  }

  const MISSING_ENV: string := "Missing required env vars: FAMILYVINE_TOKEN_CONTRACT_ADDRESS, SERVER_WALLET_PRIVATE_KEY, BASE_RPC_URL"
  /** The exit reason of a run a balance read ended; the thrown error's own text is not modelled. */
  const READ_FAILED: string := "balanceOf failed"

  /**
   * The script: stops before touching the chain when a setting is missing;
   * otherwise tops up every child with a positive balance and a wallet, in
   * order, until a balance read throws, which ends the script with an error.
   * `handled` is what was done for the candidates reached.
   */
  method SyncBalancesToChain(env: ScriptEnv, children: seq<Child>, wallets: seq<Wallet>, chain: Chain,
                             mintOk: nat -> bool, readOk: nat -> bool)
    returns (r: Result<seq<Outcome>>, handled: seq<Outcome>, finalChain: Chain)
    ensures !EnvComplete(env) ==> r == Err(MISSING_ENV) && handled == [] && finalChain == chain
    ensures EnvComplete(env) ==>
              var cs := Candidates(children, wallets, |children|);
              var run := Run(cs, chain, mintOk, readOk, |cs|);
              && handled == run.outcomes && finalChain == run.chain
              && (!run.aborted ==> r == Ok(handled))
              && (run.aborted ==> r == Err(READ_FAILED))
  {
    if !EnvComplete(env) {
      return Err(MISSING_ENV), [], chain;
    }
    var cs := Candidates(children, wallets, |children|);
    var aborted;
    handled, finalChain, aborted := TopUpAll(cs, chain, mintOk, readOk);
    r := if aborted then Err(READ_FAILED) else Ok(handled);
  }
}
