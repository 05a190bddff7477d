/** Changing the authorities of a stake account: the client checks every change
    against the authorities it finds first, the cluster applies one after another. */
module StakeAuthorize {
  import opened Prelude
  import opened LoaderState

  datatype Role = Staker | Withdrawer

  datatype Authorization = Authorization(role: Role, newAuthority: Pubkey, authority: Pubkey)

  datatype Authorized = Authorized(staker: Pubkey, withdrawer: Pubkey)

  /** Who may change a role: the withdrawer may change both. */
  function Permitted(authorized: Authorized, role: Role): seq<Pubkey> {
    match role
    case Staker => [authorized.withdrawer, authorized.staker]
    case Withdrawer => [authorized.withdrawer]
  }

  /** The command line: a new staker is signed for by the stake authority if one is
      given and else by the withdraw authority; the staker always comes first. */
  method ParseAuthorizations(newStaker: Option<Pubkey>, newWithdrawer: Option<Pubkey>,
                             stakeAuthority: Option<Pubkey>, withdrawAuthority: Option<Pubkey>, default: Pubkey)
    returns (changes: seq<Authorization>)
    ensures newStaker.Some? <==> exists c :: c in changes && c.role.Staker?
    ensures newWithdrawer.Some? <==> exists c :: c in changes && c.role.Withdrawer?
    ensures StakerFirst(changes)
    ensures forall c :: c in changes ==>
              && Some(c.newAuthority) == (if c.role.Staker? then newStaker else newWithdrawer)
              && c.authority == if c.role.Staker? && stakeAuthority.Some? then stakeAuthority.value
                                else if withdrawAuthority.Some? then withdrawAuthority.value else default
  {
    changes := [];
    var withdrawSigner := if withdrawAuthority.Some? then withdrawAuthority.value else default;
    if newStaker.Some? {
      var signer := if stakeAuthority.Some? then stakeAuthority.value else withdrawSigner;
      changes := changes + [Authorization(Staker, newStaker.value, signer)];
      assert changes[0].role.Staker?;
    }
    if newWithdrawer.Some? {
      changes := changes + [Authorization(Withdrawer, newWithdrawer.value, withdrawSigner)];
      assert changes[|changes| - 1].role.Withdrawer?;
    }
  }

  /** Each role changes at most once, and the withdrawer never before the staker. */
  ghost predicate StakerFirst(changes: seq<Authorization>) {
    |changes| <= 2 && (|changes| == 2 ==> changes[0].role.Staker? && changes[1].role.Withdrawer?)
  }

  /** The client's checks, all against the authorities on the account at the start. */
  predicate StaticallyAllowed(start: Authorized, changes: seq<Authorization>) {
    forall c :: c in changes ==> c.authority in Permitted(start, c.role)
  }

  function Change(authorized: Authorized, c: Authorization): Authorized {
    match c.role
    case Staker => authorized.(staker := c.newAuthority)
    case Withdrawer => authorized.(withdrawer := c.newAuthority)
  }

  /** Applying the changes in order, each needing an authority permitted at its turn. */
  function ApplyAll(authorized: Authorized, changes: seq<Authorization>): Option<Authorized>
    decreases |changes|
  {
    if changes == [] then Some(authorized)
    else if changes[0].authority in Permitted(authorized, changes[0].role)
    then ApplyAll(Change(authorized, changes[0]), changes[1..])
    else None
  }

  /** For what the command line produces the static checks decide exactly whether the
      changes go through one after another. */
  lemma StaticChecksDecide(start: Authorized, changes: seq<Authorization>)
    requires StakerFirst(changes)
    ensures StaticallyAllowed(start, changes) <==> ApplyAll(start, changes).Some?
    ensures ApplyAll(start, changes).Some? ==>
              var end := ApplyAll(start, changes).value;
              && (end.staker == start.staker || exists c :: c in changes && c.role.Staker?)
              && (end.withdrawer == start.withdrawer || exists c :: c in changes && c.role.Withdrawer?)
              && (forall c :: c in changes ==> c.newAuthority == if c.role.Staker? then end.staker else end.withdrawer)
  {
    if |changes| == 1 {
      assert changes == [changes[0]];
      assert ApplyAll(Change(start, changes[0]), changes[1..]).Some?;
    } else if |changes| == 2 {
      assert changes == [changes[0], changes[1]];
      var next := Change(start, changes[0]);
      assert changes[1..] == [changes[1]] && changes[1..][1..] == [];
      assert ApplyAll(next, [changes[1]]).Some? <==> changes[1].authority in Permitted(next, Withdrawer);
      assert Permitted(next, Withdrawer) == Permitted(start, Withdrawer);
      if changes[1].authority in Permitted(next, Withdrawer) {
        assert ApplyAll(next, changes[1..]) == ApplyAll(Change(next, changes[1]), []);
        assert ApplyAll(Change(next, changes[1]), []) == Some(Change(next, changes[1]));
      }
    }
  }

  /** In the opposite order they do not: after the withdrawer has changed, the staker's
      signer is accepted exactly if it is the staker or the new withdrawer. */
  lemma OppositeOrderFails(start: Authorized, staker: Authorization, withdrawer: Authorization)
    requires staker.role.Staker? && withdrawer.role.Withdrawer?
    requires StaticallyAllowed(start, [withdrawer, staker])
    ensures ApplyAll(start, [withdrawer, staker]).Some? <==>
              staker.authority == start.staker || staker.authority == withdrawer.newAuthority
  {
    var changes := [withdrawer, staker];
    assert withdrawer in changes && staker in changes;
    var next := Change(start, withdrawer);
    assert changes[1..] == [staker] && [staker][1..] == [];
    assert ApplyAll(next, [staker]).Some? <==> staker.authority in Permitted(next, Staker);
  }
}
