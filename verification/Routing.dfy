/** The account lists the dispatcher builds for its calls into an adapter. */
module Routing {
  import opened Accounts

  datatype Key =
    | InstructionsSysvar
    | SystemProgram
    | ProgramKey(program: Program)
    | UserKey(owner: nat)
    | PositionKey(position: PositionId)
    | PoolKey(position: PositionId)
    | StateKey(position: PositionId)
    | TailKey(id: nat)

  datatype AccountMeta = AccountMeta(key: Key, isSigner: bool, isWritable: bool)

  /** An account as the dispatcher received it, with the privileges its own caller gave. */
  datatype AccountInfo = AccountInfo(key: Key, isSigner: bool, isWritable: bool)

  function Forwarded(remaining: seq<AccountInfo>): (metas: seq<AccountMeta>)
    ensures |metas| == |remaining|
  {
    seq(|remaining|, k requires 0 <= k < |remaining| =>
      AccountMeta(remaining[k].key, remaining[k].isSigner, remaining[k].isWritable))
  }

  class CallBuffers {
    var metas: seq<AccountMeta>
    var infos: seq<AccountInfo>

    constructor (prefix: seq<AccountMeta>, accounts: seq<AccountInfo>)
      ensures metas == prefix && infos == accounts
    {
      metas, infos := prefix, accounts;
    }

    /** Every remaining account goes behind the prefix, in order and with its flags. */
    method Forward(remaining: seq<AccountInfo>)
      modifies this
      ensures metas == old(metas) + Forwarded(remaining)
      ensures infos == old(infos) + remaining
    {
      for k := 0 to |remaining|
        invariant metas == old(metas) + Forwarded(remaining)[..k]
        invariant infos == old(infos) + remaining[..k]
      {
        var acc := remaining[k];
        assert Forwarded(remaining)[..k + 1] == Forwarded(remaining)[..k] + [Forwarded(remaining)[k]];
        assert remaining[..k + 1] == remaining[..k] + [acc];
        metas := metas + [AccountMeta(acc.key, acc.isSigner, acc.isWritable)];
        infos := infos + [acc];
      }
      assert Forwarded(remaining)[..|remaining|] == Forwarded(remaining);
      assert remaining[..|remaining|] == remaining;
    }
  }

  // ----- what the runtime asks of a call -----

  /** The runtime finds the account among those passed along and grants no privilege it lacks, except
      signatures of the caller's own derived addresses. */
  ghost predicate Admitted(meta: AccountMeta, infos: seq<AccountInfo>, signers: set<Key>) {
    exists k | 0 <= k < |infos| ::
      && infos[k].key == meta.key
      && (meta.isWritable ==> infos[k].isWritable)
      && (meta.isSigner ==> infos[k].isSigner || meta.key in signers)
  }

  ghost predicate AllAdmitted(metas: seq<AccountMeta>, infos: seq<AccountInfo>, signers: set<Key>) {
    forall i | 0 <= i < |metas| :: Admitted(metas[i], infos, signers)
  }

  lemma ForwardedAdmitted(metas: seq<AccountMeta>, infos: seq<AccountInfo>, remaining: seq<AccountInfo>, signers: set<Key>)
    requires AllAdmitted(metas, infos, signers)
    ensures AllAdmitted(metas + Forwarded(remaining), infos + remaining, signers)
  {
    var allMetas, all := metas + Forwarded(remaining), infos + remaining;
    forall i | 0 <= i < |allMetas|
      ensures Admitted(allMetas[i], all, signers)
    {
      if i < |metas| {
        assert Admitted(metas[i], infos, signers);
        var k :| 0 <= k < |infos| && infos[k].key == metas[i].key && (metas[i].isWritable ==> infos[k].isWritable)
              && (metas[i].isSigner ==> infos[k].isSigner || metas[i].key in signers);
        assert all[k] == infos[k];
      } else {
        var k := i - |metas|;
        assert all[|infos| + k] == remaining[k];
        assert allMetas[i] == Forwarded(remaining)[k];
      }
    }
  }

  // ----- the three prefixes -----

  method InitializeAccounts(program: AccountInfo, sysvar: AccountInfo, position: AccountInfo, state: AccountInfo,
                            payer: AccountInfo, system: AccountInfo, remaining: seq<AccountInfo>)
    returns (metas: seq<AccountMeta>, infos: seq<AccountInfo>)
    ensures |metas| == 5 + |remaining|
    ensures metas[0] == AccountMeta(sysvar.key, false, false) && metas[1] == AccountMeta(position.key, true, false)
    ensures metas[2] == AccountMeta(state.key, false, true) && metas[3] == AccountMeta(payer.key, true, true)
    ensures metas[4] == AccountMeta(system.key, false, false)
    ensures metas[5..] == Forwarded(remaining)
    ensures infos == [program, sysvar, position, state, payer, system] + remaining
    ensures state.isWritable && payer.isSigner && payer.isWritable ==> AllAdmitted(metas, infos, {position.key})
  {
    var prefix := [AccountMeta(sysvar.key, false, false), AccountMeta(position.key, true, false),
                   AccountMeta(state.key, false, true), AccountMeta(payer.key, true, true),
                   AccountMeta(system.key, false, false)];
    var accounts := [program, sysvar, position, state, payer, system];
    var buffers := new CallBuffers(prefix, accounts);
    buffers.Forward(remaining);
    metas, infos := buffers.metas, buffers.infos;
    if state.isWritable && payer.isSigner && payer.isWritable {
      assert forall i | 0 <= i < 5 :: accounts[i + 1].key == prefix[i].key;
      assert AllAdmitted(prefix, accounts, {position.key});
      ForwardedAdmitted(prefix, accounts, remaining, {position.key});
    }
  }

  method FundMovementAccounts(program: AccountInfo, sysvar: AccountInfo, position: AccountInfo, pool: AccountInfo,
                              state: AccountInfo, remaining: seq<AccountInfo>)
    returns (metas: seq<AccountMeta>, infos: seq<AccountInfo>)
    ensures |metas| == 4 + |remaining|
    ensures metas[0] == AccountMeta(sysvar.key, false, false) && metas[1] == AccountMeta(position.key, true, true)
    ensures metas[2] == AccountMeta(pool.key, false, true) && metas[3] == AccountMeta(state.key, false, true)
    ensures metas[4..] == Forwarded(remaining)
    ensures infos == [program, sysvar, position, pool, state] + remaining
    ensures position.isWritable && pool.isWritable && state.isWritable ==> AllAdmitted(metas, infos, {position.key})
  {
    var prefix := [AccountMeta(sysvar.key, false, false), AccountMeta(position.key, true, true),
                   AccountMeta(pool.key, false, true), AccountMeta(state.key, false, true)];
    var accounts := [program, sysvar, position, pool, state];
    var buffers := new CallBuffers(prefix, accounts);
    buffers.Forward(remaining);
    metas, infos := buffers.metas, buffers.infos;
    if position.isWritable && pool.isWritable && state.isWritable {
      assert forall i | 0 <= i < 4 :: accounts[i + 1].key == prefix[i].key;
      assert AllAdmitted(prefix, accounts, {position.key});
      ForwardedAdmitted(prefix, accounts, remaining, {position.key});
    }
  }

  method CurrentValueAccounts(program: AccountInfo, sysvar: AccountInfo, position: AccountInfo, state: AccountInfo,
                              remaining: seq<AccountInfo>)
    returns (metas: seq<AccountMeta>, infos: seq<AccountInfo>)
    ensures |metas| == 3 + |remaining|
    ensures metas[0] == AccountMeta(sysvar.key, false, false) && metas[1] == AccountMeta(position.key, false, false)
    ensures metas[2] == AccountMeta(state.key, false, false)
    ensures metas[3..] == Forwarded(remaining)
    ensures infos == [program, sysvar, position, state] + remaining
    ensures AllAdmitted(metas, infos, {})
  {
    var prefix := [AccountMeta(sysvar.key, false, false), AccountMeta(position.key, false, false),
                   AccountMeta(state.key, false, false)];
    var accounts := [program, sysvar, position, state];
    var buffers := new CallBuffers(prefix, accounts);
    buffers.Forward(remaining);
    metas, infos := buffers.metas, buffers.infos;
    assert forall i | 0 <= i < 3 :: accounts[i + 1].key == prefix[i].key;
    assert AllAdmitted(prefix, accounts, {});
    ForwardedAdmitted(prefix, accounts, remaining, {});
  }
}
