/** An adapter invoked by its program id, account list and instruction bytes, as the runtime does it. */
module CrossCall {
  import opened Machine
  import opened Accounts
  import opened Protocol
  import opened Chain
  import opened AdapterInterface
  import opened Routing
  import AdapterSpec
  import KaminoAdapter
  import MarginfiAdapter
  import JupiterAdapter
  import MapleAdapter
  import DriftAdapter

  /** Where an instruction expects the adapter's state account. */
  function StateSlot(ix: Instruction): nat {
    if ix.Deposit? || ix.Withdraw? then 3 else 2
  }

  /** The position an account list names: the sysvar first, the position second, and the state account
      derived from that position under the called program; fund movements have the pool between them. */
  function Resolve(program: Program, ix: Instruction, metas: seq<AccountMeta>): Result<PositionId, AdapterError> {
    if |metas| <= StateSlot(ix) then Err(AccountMissing)
    else if metas[0].key != InstructionsSysvar || !metas[1].key.PositionKey? then Err(AdapterError.Unauthorized)
    else
      var pos := metas[1].key.position;
      if pos.program != program || metas[StateSlot(ix)].key != StateKey(pos) then Err(AdapterError.Unauthorized)
      else if StateSlot(ix) == 3 && metas[2].key != PoolKey(pos) then Err(AdapterError.Unauthorized)
      else Ok(pos)
  }

  /** The slots, number by number: sysvar 0 and position 1 always; state 2 for initialize and value reads; pool
      2 and state 3 for fund movements. */
  lemma ResolvesIff(program: Program, ix: Instruction, metas: seq<AccountMeta>, pos: PositionId)
    ensures Resolve(program, ix, metas) == Ok(pos) <==>
        && pos.program == program
        && |metas| > 2 && metas[0].key == InstructionsSysvar && metas[1].key == PositionKey(pos)
        && (if ix.Deposit? || ix.Withdraw? then |metas| > 3 && metas[2].key == PoolKey(pos) && metas[3].key == StateKey(pos)
            else metas[2].key == StateKey(pos))
  {}

  /** What a call does, in terms of what goes over the wire. */
  function Called(w: World, tx: Transaction, program: Program, metas: seq<AccountMeta>, data: seq<Byte>,
                  extra: AdapterSpec.Extra, cpis: seq<Cpi>): Result<World, AdapterError>
  {
    match Decode(data)
    case None => Err(UnknownInstruction)
    case Some(ix) =>
      var pos :- Resolve(program, ix, metas);
      AdapterSpec.Processed(w, tx, pos, ix, extra, cpis)
  }

  /** An adapter outside this repository: one move that the accounts allow. */
  method ForeignEntry(ledger: Ledger, pos: PositionId, ix: Instruction, extra: AdapterSpec.Extra, cpis: seq<Cpi>,
                      ghost tx: Transaction)
    returns (r: Result<(), AdapterError>)
    requires !pos.program.IsReference()
    modifies ledger
    ensures Agrees(r, ledger.View(), AdapterSpec.Processed(old(ledger.View()), tx, pos, ix, extra, cpis))
  {
    hide Invoke, InvokeAll;
    if ix.Initialize? {
      if pos in ledger.states || pos in ledger.holdings { return Err(AccountExists); }
      ledger.holdings := ledger.holdings[pos := Holding(extra.market, 0)];
    }
    if !pos.program.Other? { return Err(CpiFailed); }
    OneCall(ledger.View(), pos, !ix.CurrentValue?, cpis);
    r := ledger.Invoke(pos, !ix.CurrentValue?, CpiAt(cpis, 0));
  }

  method Call(ledger: Ledger, tx: Transaction, program: Program, metas: seq<AccountMeta>, data: seq<Byte>,
              extra: AdapterSpec.Extra, cpis: seq<Cpi>)
    returns (r: Result<(), AdapterError>)
    modifies ledger
    ensures Agrees(r, ledger.View(), Called(old(ledger.View()), tx, program, metas, data, extra, cpis))
  {
    hide AdapterSpec.Processed, Decode;
    var decoded := Decode(data);
    if decoded.None? { return Err(UnknownInstruction); }
    var ix := decoded.value;
    var pos :- Resolve(program, ix, metas);
    match program
    case Kamino => r := KaminoAdapter.Entry(ledger, tx, pos, ix, extra, cpis);
    case MarginFi => r := MarginfiAdapter.Entry(ledger, tx, pos, ix, extra, cpis);
    case Jupiter => r := JupiterAdapter.Entry(ledger, tx, pos, ix, extra, cpis);
    case Maple => r := MapleAdapter.Entry(ledger, tx, pos, ix, extra, cpis);
    case Drift => r := DriftAdapter.Entry(ledger, tx, pos, ix, extra, cpis);
    case _ => r := ForeignEntry(ledger, pos, ix, extra, cpis, tx);
  }

  /** An encoded instruction sent with the right slots does exactly what the instruction says: the
      adapter works on the same position with the same number. */
  lemma WireCarries(w: World, tx: Transaction, pos: PositionId, ix: Instruction, metas: seq<AccountMeta>,
                    extra: AdapterSpec.Extra, cpis: seq<Cpi>)
    requires |ix.data| < 0x1_0000_0000 && |metas| > StateSlot(ix)
    requires metas[0].key == InstructionsSysvar && metas[1].key == PositionKey(pos) && metas[StateSlot(ix)].key == StateKey(pos)
    requires StateSlot(ix) == 3 ==> metas[2].key == PoolKey(pos)
    ensures Called(w, tx, pos.program, metas, Encoding(ix), extra, cpis) == AdapterSpec.Processed(w, tx, pos, ix, extra, cpis)
  {
    hide AdapterSpec.Processed, Decode, Encoding;
    DecodesBack(ix, []);
    assert Encoding(ix) + [] == Encoding(ix);
  }

  /** Bytes of one instruction are never taken for another, whatever trails them: a call that succeeds
      on an encoding, with any accounts, ran that instruction. */
  lemma NoConfusion(w: World, tx: Transaction, program: Program, ix: Instruction, rest: seq<Byte>, metas: seq<AccountMeta>,
                    extra: AdapterSpec.Extra, cpis: seq<Cpi>)
    requires |ix.data| < 0x1_0000_0000
    ensures var r := Called(w, tx, program, metas, Encoding(ix) + rest, extra, cpis);
      if Resolve(program, ix, metas).Ok? then
        r == AdapterSpec.Processed(w, tx, Resolve(program, ix, metas).value, ix, extra, cpis)
      else r.Err?
  {
    hide AdapterSpec.Processed, Decode, Encoding, Resolve;
    DecodesBack(ix, rest);
  }

  /** Whatever bytes and accounts a reference adapter is handed, a call that succeeds carries one of the
      four instructions for the position in its slots, came in under a top-level dispatcher instruction,
      with at most 256 bytes of data, a positive number, and, MarginFi apart, no more shares than booked. */
  lemma AcceptsOnly(w: World, tx: Transaction, program: Program, metas: seq<AccountMeta>, data: seq<Byte>,
                    extra: AdapterSpec.Extra, cpis: seq<Cpi>)
    requires program.IsReference() && Called(w, tx, program, metas, data, extra, cpis).Ok?
    ensures Decode(data).Some? && Resolve(program, Decode(data).value, metas).Ok?
    ensures tx.current < |tx.programs| && tx.programs[tx.current] == Dispatcher
    ensures |Decode(data).value.data| <= 256
    ensures var ix, pos := Decode(data).value, Resolve(program, Decode(data).value, metas).value;
      && pos.program == program
      && (ix.Initialize? <==> pos !in w.states)
      && (ix.Deposit? || ix.Withdraw? ==> ix.n > 0)
      && (ix.Withdraw? && !program.MarginFi? ==> ix.n <= w.states[pos].totalShares)
  {
    hide Decode, InvokeAll, AdapterSpec.ValueOf;
  }
}
