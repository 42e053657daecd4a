/** Where histories start, and what therefore holds of every ledger and every chain. */
module Genesis {
  import opened Prelude
  import opened Types
  import opened Sums
  import opened Accounts
  import opened LedgerSpec
  import opened Conservation
  import opened LedgerInvariants
  import opened Authority
  import opened Nomad
  import opened Clock
  import opened ChainRuns
  import opened BlockRules
  import R = Runs

  /** An account before its first transaction: VAN only, no two devices on one lane, lanes
      below the next, and offline shares, all unspent, within the credit. */
  ghost predicate Founding(a: Account) {
    && (forall asset :: asset in a.balances ==> asset == None)
    && (forall d :: d in a.devices ==> a.devices[d].lane < a.nextLane && a.devices[d].nomadSpent == 0)
    && (forall d, e :: d in a.devices && e in a.devices && a.devices[d].lane == a.devices[e].lane ==> d == e)
    && Shares(a.devices) <= a.nomadCredit
  }

  /** Empty books, zero counters, founding accounts, and no more VAN than there may ever be. */
  ghost predicate IsGenesis(s: State) {
    && s == EMPTY_STATE.(accounts := s.accounts)
    && (forall id :: id in s.accounts ==> Founding(s.accounts[id]))
    && WithinCap(s)
  }

  lemma {:induction false} SumOfNothing<K(!new), V(!new)>(m: map<K, V>, f: (K, V) -> int)
    requires forall k :: k in m ==> f(k, m[k]) == 0
    ensures Sum(m, f) == 0
    decreases |m|
  {
    if m != map[] {
      var k :| k in m;
      SumRemove(m, f, k);
      SumOfNothing(m - {k}, f);
    }
  }

  lemma FoundingIsSound(a: Account)
    requires Founding(a)
    ensures LanesSound(a) && NomadSound(a)
  {
    hide Shares;
  }

  lemma NoAssetsAtGenesis(s: State, id: AssetId)
    requires IsGenesis(s)
    ensures Value(s, Some(id)) == 0
  {
    hide WithinCap, IsGenesis;
    NoAssetHeld(s, id);
    SumOfNothing(s.accounts, AccountValue(Some(id)));
    SumOfNothing(s.purses, DepositIn(Some(id)));
  }

  lemma NoAssetHeld(s: State, id: AssetId)
    requires IsGenesis(s)
    ensures s.purses == map[]
    ensures forall k :: k in s.accounts ==> AccountValue(Some(id))(k, s.accounts[k]) == 0
  {
    hide WithinCap;
    forall k | k in s.accounts
      ensures AccountValue(Some(id))(k, s.accounts[k]) == 0
    {
      assert Founding(s.accounts[k]);
    }
  }

  lemma GenesisSupplies(s: State)
    requires IsGenesis(s)
    ensures SuppliesAgree(s)
  {
    assert s.assets == map[];
    hide Value, WithinCap, IsGenesis;
    forall id: AssetId
      ensures Value(s, Some(id)) == SupplyOf(s, id)
    {
      NoAssetsAtGenesis(s, id);
    }
  }

  lemma GenesisBooks(s: State)
    requires IsGenesis(s)
    ensures WithinCap(s) && s.fees == 0
    ensures s.purses == map[] && s.assets == map[] && s.tickers == map[]
  {
    hide WithinCap, Founding;
  }

  lemma GenesisIsSolvent(s: State)
    requires IsGenesis(s)
    ensures Solvent(s) && SoundPurses(s.purses)
  {
    hide IsGenesis, Value, WithinCap, SuppliesAgree;
    GenesisSupplies(s);
    GenesisBooks(s);
  }

  lemma GenesisAccounts(s: State)
    requires IsGenesis(s)
    ensures AllLanesSound(s) && AllNomadSound(s)
  {
    hide WithinCap, LanesSound, NomadSound;
    forall id
      ensures LanesSound(AccountAt(s.accounts, id)) && NomadSound(AccountAt(s.accounts, id))
    {
      if id in s.accounts {
        FoundingIsSound(s.accounts[id]);
      } else {
        VacantIsSound();
      }
    }
  }

  lemma VacantIsSound()
    ensures LanesSound(VACANT) && NomadSound(VACANT)
  {
    SumOfNothing(VACANT.devices, ShareOf);
  }

  /** A genesis meets every invariant the theorems about runs and chains start from. */
  lemma GenesisIsSound(s: State)
    requires IsGenesis(s)
    ensures Solvent(s) && SoundPurses(s.purses) && AllLanesSound(s) && AllNomadSound(s)
  {
    hide IsGenesis, Solvent, SoundPurses, AllLanesSound, AllNomadSound;
    GenesisIsSolvent(s);
    GenesisAccounts(s);
  }

  /** From a genesis every run keeps lanes and shares sound, and, as long as no conviction
      seizes a margin, the ledger solvent and housekeeping possible at any height. */
  lemma RunsFromGenesis(o: Oracle, s: State, events: seq<R.Event>, finalized: u64)
    requires IsGenesis(s)
    ensures AllLanesSound(R.Run(o, s, events)) && AllNomadSound(R.Run(o, s, events))
    ensures R.SeizesNoMargin(o, s, events) ==>
      Solvent(R.Run(o, s, events)) && Housekept(R.Run(o, s, events), finalized).Success?
  {
    hide IsGenesis, Solvent, AllLanesSound, AllNomadSound, Housekept, R.Run;
    GenesisIsSound(s);
    RunStep(o, s, events);
    SharesStayCovered(o, s, events);
    if R.SeizesNoMargin(o, s, events) {
      SolventRun(o, s, events, finalized);
    }
  }

  /** The same of every chain of valid blocks, whose channels stay sound as well. */
  lemma ChainsFromGenesis(o: Oracle, params: ChainParameters, parent: BlockHeader, c: ChainState,
                          links: seq<Link>, tip: BlockHeader, d: ChainState, finalized: u64)
    requires IsGenesis(c.ledger) && Extends(o, params, parent, c, links, tip, d)
    ensures AllLanesSound(d.ledger) && AllNomadSound(d.ledger) && SoundPurses(d.ledger.purses)
    ensures R.SeizesNoMargin(o, c.ledger, ChainEvents(links)) ==>
      Solvent(d.ledger) && Housekept(d.ledger, finalized).Success?
  {
    hide IsGenesis, Solvent, AllLanesSound, AllNomadSound, SoundPurses, Housekept, Extends, R.Run, ChainEvents;
    GenesisIsSound(c.ledger);
    ChainIsARun(o, params, parent, c, links, tip, d);
    RunsFromGenesis(o, c.ledger, ChainEvents(links), finalized);
    ChainEndsSound(o, params, parent, c, links, tip, d);
  }
}
