/** MarginFi: finding a bank's asset shares among the sixteen balance slots of an account. */
module MarginfiScan {
  import opened Machine
  import MarginfiCpi

  const BALANCES_OFF: nat := 72
  const BALANCE_SIZE: nat := 104
  const BAL_BANK_PK: nat := 1
  const BAL_ASSET_SHARES: nat := 40
  const SLOTS: nat := 16
  const TABLE_END: nat := 1736 // BALANCES_OFF + SLOTS * BALANCE_SIZE
  const BANK_ASSET_SHARE_VALUE: nat := 80

  type Pubkey = k: seq<Byte> | |k| == 32 witness seq(32, _ => 0)

  datatype Balance = Balance(active: bool, bank: Pubkey, shares: I128) {
    predicate Matches(key: Pubkey) {
      active && bank == key
    }
  }

  function Base(i: nat): nat {
    BALANCES_OFF + i * BALANCE_SIZE
  }

  /** The slot that a whole account's bytes hold at position i. */
  function BalanceAt(data: seq<Byte>, i: nat): Balance
    requires i < SLOTS && TABLE_END <= |data|
  {
    Balance(data[Base(i)] != 0,
            data[Base(i) + BAL_BANK_PK..Base(i) + BAL_BANK_PK + 32],
            ReadI128(data, Base(i) + BAL_ASSET_SHARES).value)
  }

  function Table(data: seq<Byte>): (t: seq<Balance>)
    requires TABLE_END <= |data|
    ensures |t| == SLOTS
  {
    seq(SLOTS, i requires 0 <= i < SLOTS => BalanceAt(data, i))
  }

  /** Shares of the first active slot for the bank, or 0. */
  function FirstMatch(table: seq<Balance>, key: Pubkey): I128 {
    if table == [] then 0
    else if table[0].Matches(key) then table[0].shares
    else FirstMatch(table[1..], key)
  }

  /** Bytes of slot i that have to be there before the search can move past it. */
  function PassEnd(table: seq<Balance>, i: nat): nat
    requires i < |table|
  {
    if table[i].active then Base(i) + BAL_BANK_PK + 32 else Base(i) + 1
  }

  /** End of the last field the search looks at, from slot i on. */
  function DecidedBy(table: seq<Balance>, key: Pubkey, i: nat): nat
    requires i <= |table| == SLOTS
    decreases SLOTS - i
  {
    if i == SLOTS then PassEnd(table, SLOTS - 1)
    else if table[i].Matches(key) then Base(i) + BAL_ASSET_SHARES + 16
    else DecidedBy(table, key, i + 1)
  }

  lemma {:induction false} DecidedLate(table: seq<Balance>, key: Pubkey, i: nat)
    requires i < |table| == SLOTS
    ensures PassEnd(table, i) <= DecidedBy(table, key, i)
    decreases SLOTS - i
  {
    if i + 1 < SLOTS { DecidedLate(table, key, i + 1); }
  }

  lemma CutSlice(data: seq<Byte>, whole: seq<Byte>, lo: nat, hi: nat)
    requires data <= whole && lo <= hi <= |data|
    ensures data[lo..hi] == whole[lo..hi]
  {}

  lemma CutRead(data: seq<Byte>, whole: seq<Byte>, off: nat)
    requires data <= whole && off + 16 <= |whole|
    ensures ReadI128(data, off) == if off + 16 <= |data| then ReadI128(whole, off) else Err(MathOverflow)
  {
    if off + 16 <= |data| { CutSlice(data, whole, off, off + 16); }
  }

  /** One round of the search: pass an idle or foreign slot, or answer with the slot's shares. */
  function ReadSlot(data: seq<Byte>, i: nat, key: Pubkey): Result<Option<I128>, AdapterError> {
    var base := Base(i);
    if |data| <= base then Err(MathOverflow)
    else if data[base] == 0 then Ok(None)
    else if |data| < base + BAL_BANK_PK + 32 then Err(MathOverflow)
    else if data[base + BAL_BANK_PK..base + BAL_BANK_PK + 32] != key then Ok(None)
    else
      var shares :- ReadI128(data, base + BAL_ASSET_SHARES);
      Ok(Some(shares))
  }

  lemma ReadSlotIs(data: seq<Byte>, whole: seq<Byte>, i: nat, key: Pubkey)
    requires TABLE_END <= |whole| && data <= whole && i < SLOTS
    ensures var slot := BalanceAt(whole, i);
      ReadSlot(data, i, key) ==
        if slot.Matches(key) then
          if |data| < Base(i) + BAL_ASSET_SHARES + 16 then Err(MathOverflow) else Ok(Some(slot.shares))
        else if |data| < PassEnd(Table(whole), i) then Err(MathOverflow)
        else Ok(None)
  {
    var base := Base(i);
    if base + BAL_BANK_PK + 32 <= |data| {
      CutSlice(data, whole, base + BAL_BANK_PK, base + BAL_BANK_PK + 32);
    }
    CutRead(data, whole, base + BAL_ASSET_SHARES);
  }

  /** Slot i of the account's bytes is active and holds the bank. */
  predicate SlotMatches(whole: seq<Byte>, bank: Pubkey, i: nat)
    requires i < 16 && 1736 <= |whole|
  {
    whole[72 + 104 * i] != 0 && whole[73 + 104 * i..105 + 104 * i] == bank
  }

  /** The table's slots, byte by byte: flag, key and shares. */
  lemma SlotLayout(whole: seq<Byte>, i: nat)
    requires i < 16 && 1736 <= |whole|
    ensures Table(whole)[i].active == (whole[72 + 104 * i] != 0)
    ensures Table(whole)[i].bank == whole[73 + 104 * i..105 + 104 * i]
    ensures Ok(Table(whole)[i].shares) == ReadI128(whole, 112 + 104 * i)
  {
    assert Table(whole)[i] == BalanceAt(whole, i);
  }

  /** The first slot that matches, counting from `from`, or 16. */
  ghost predicate FirstSlot(whole: seq<Byte>, bank: Pubkey, from: nat, i: nat)
    requires 1736 <= |whole|
  {
    && from <= i <= 16
    && (i < 16 ==> SlotMatches(whole, bank, i))
    && forall j | from <= j < i :: !SlotMatches(whole, bank, j)
  }

  lemma {:induction false} DecidedAt(whole: seq<Byte>, bank: Pubkey, from: nat, i: nat)
    requires 1736 <= |whole| && FirstSlot(whole, bank, from, i)
    ensures FirstMatch(Table(whole)[from..], bank) == if i < 16 then ReadI128(whole, 112 + 104 * i).value else 0
    ensures DecidedBy(Table(whole), bank, from) ==
      if i < 16 then 128 + 104 * i else if whole[1632] != 0 then 1665 else 1633
    decreases 16 - from
  {
    var table := Table(whole);
    SlotLayout(whole, 15);
    if from < 16 {
      SlotLayout(whole, from);
      assert table[from..][0] == table[from] && table[from..][1..] == table[from + 1..];
      assert table[from].Matches(bank) <==> SlotMatches(whole, bank, from);
      assert Base(from) == 72 + 104 * from;
      if from < i { DecidedAt(whole, bank, from + 1, i); }
    }
  }

  /** What the scan answers, in plain offsets: flags at 72, keys at 73 to 105 and shares at 112 to 128, each
      104 bytes further per slot. */
  lemma ScanLayout(whole: seq<Byte>, bank: Pubkey, i: nat)
    requires 1736 <= |whole| && FirstSlot(whole, bank, 0, i)
    ensures FirstMatch(Table(whole), bank) == if i < 16 then ReadI128(whole, 112 + 104 * i).value else 0
    ensures DecidedBy(Table(whole), bank, 0) ==
      if i < 16 then 128 + 104 * i else if whole[1632] != 0 then 1665 else 1633
  {
    DecidedAt(whole, bank, 0, i);
    assert Table(whole)[0..] == Table(whole);
  }

  /** On any cut `data` of a whole account's bytes the loop answers like the table lookup,
      and fails exactly when the cut comes before the end of the deciding field. */
  method AccountAssetShares(data: seq<Byte>, bank: Pubkey, ghost whole: seq<Byte>)
    returns (r: Result<I128, AdapterError>)
    requires TABLE_END <= |whole| && data <= whole
    ensures r == if |data| < DecidedBy(Table(whole), bank, 0) then Err(MathOverflow)
                 else Ok(FirstMatch(Table(whole), bank))
    ensures forall i: nat | FirstSlot(whole, bank, 0, i) ::
      r == if i < 16 then if |data| < 128 + 104 * i then Err(MathOverflow) else ReadI128(whole, 112 + 104 * i)
           else if |data| < (if whole[1632] != 0 then 1665 else 1633) then Err(MathOverflow)
           else Ok(0)
  {
    ghost var table := Table(whole);
    forall i: nat | FirstSlot(whole, bank, 0, i)
      ensures FirstMatch(table, bank) == if i < 16 then ReadI128(whole, 112 + 104 * i).value else 0
      ensures DecidedBy(table, bank, 0) == if i < 16 then 128 + 104 * i else if whole[1632] != 0 then 1665 else 1633
    {
      ScanLayout(whole, bank, i);
    }
    for i := 0 to SLOTS
      invariant FirstMatch(table, bank) == FirstMatch(table[i..], bank)
      invariant DecidedBy(table, bank, 0) == DecidedBy(table, bank, i)
      invariant i > 0 ==> PassEnd(table, i - 1) <= |data|
    {
      DecidedLate(table, bank, i);
      assert table[i] == BalanceAt(whole, i);
      assert table[i..][0] == table[i] && table[i..][1..] == table[i + 1..];
      ReadSlotIs(data, whole, i, bank);
      var found :- ReadSlot(data, i, bank);
      if found.Some? { return Ok(found.value); }
    }
    return Ok(0);
  }

  /** The adapter's value read: scan, then the bank's share value, then the product. */
  method ValueFromBytes(account: seq<Byte>, bank: Pubkey, bankData: seq<Byte>, ghost whole: seq<Byte>)
    returns (r: Result<U64, AdapterError>)
    requires TABLE_END <= |whole| && account <= whole
    ensures r == if |account| < DecidedBy(Table(whole), bank, 0) || |bankData| < 96 then Err(MathOverflow)
                 else MarginfiCpi.SharesToUsdc(FirstMatch(Table(whole), bank), ReadI128(bankData, 80).value)
    ensures forall i: nat | FirstSlot(whole, bank, 0, i) && i < 16 ::
      r == if |account| < 128 + 104 * i || |bankData| < 96 then Err(MathOverflow)
           else MarginfiCpi.SharesToUsdc(ReadI128(whole, 112 + 104 * i).value, ReadI128(bankData, 80).value)
  {
    var shares :- AccountAssetShares(account, bank, whole);
    var shareValue :- ReadI128(bankData, BANK_ASSET_SHARE_VALUE);
    r := MarginfiCpi.SharesToUsdc(shares, shareValue);
  }

  // ----- one active balance per bank -----

  ghost predicate AtMostOneMatch(table: seq<Balance>, key: Pubkey) {
    forall i, j | 0 <= i < j < |table| :: !(table[i].Matches(key) && table[j].Matches(key))
  }

  function SumOfMatches(table: seq<Balance>, key: Pubkey): int {
    if table == [] then 0
    else (if table[0].Matches(key) then table[0].shares else 0) + SumOfMatches(table[1..], key)
  }

  lemma {:induction false} NoMatch(table: seq<Balance>, key: Pubkey)
    requires forall b | b in table :: !b.Matches(key)
    ensures SumOfMatches(table, key) == 0 && FirstMatch(table, key) == 0
  {
    if table != [] { NoMatch(table[1..], key); }
  }

  /** With at most one active slot for the bank, the first match is the whole holding. */
  lemma {:induction false} FirstIsSum(table: seq<Balance>, key: Pubkey)
    requires AtMostOneMatch(table, key)
    ensures FirstMatch(table, key) == SumOfMatches(table, key)
  {
    if table == [] {
    } else if table[0].Matches(key) {
      forall b | b in table[1..] ensures !b.Matches(key) {
        var j :| 0 <= j < |table[1..]| && table[1..][j] == b;
        assert table[j + 1] == b;
      }
      NoMatch(table[1..], key);
    } else {
      FirstIsSum(table[1..], key);
    }
  }

  lemma {:induction false} MatchFound(table: seq<Balance>, key: Pubkey, b: Balance)
    requires AtMostOneMatch(table, key) && b in table && b.Matches(key)
    ensures FirstMatch(table, key) == b.shares
  {
    var j :| 0 <= j < |table| && table[j] == b;
    if j > 0 {
      assert !table[0].Matches(key);
      assert table[1..][j - 1] == b;
      MatchFound(table[1..], key, b);
    }
  }

  /** The answer does not depend on the order of the slots. */
  lemma OrderIndependent(table: seq<Balance>, shuffled: seq<Balance>, key: Pubkey)
    requires AtMostOneMatch(table, key) && multiset(table) == multiset(shuffled)
    ensures AtMostOneMatch(shuffled, key)
    ensures FirstMatch(shuffled, key) == FirstMatch(table, key)
  {
    assert forall b :: b in table <==> b in multiset(table);
    assert forall b :: b in shuffled <==> b in multiset(shuffled);
    forall i, j | 0 <= i < j < |shuffled| && shuffled[i].Matches(key) && shuffled[j].Matches(key)
      ensures false
    {
      assert shuffled[i] in table && shuffled[j] in table;
      var p :| 0 <= p < |table| && table[p] == shuffled[i];
      var q :| 0 <= q < |table| && table[q] == shuffled[j];
      if p == q {
        TwoCopies(shuffled, i, j);
        OneCopy(table, key, p);
      }
    }
    if b :| b in table && b.Matches(key) {
      MatchFound(table, key, b);
      MatchFound(shuffled, key, b);
    } else {
      NoMatch(table, key);
      NoMatch(shuffled, key);
    }
  }

  lemma TwoCopies(table: seq<Balance>, i: nat, j: nat)
    requires i < j < |table| && table[i] == table[j]
    ensures multiset(table)[table[i]] >= 2
  {
    assert table == table[..i] + [table[i]] + table[i + 1..j] + [table[j]] + table[j + 1..];
  }

  lemma OneCopy(table: seq<Balance>, key: Pubkey, p: nat)
    requires AtMostOneMatch(table, key) && p < |table| && table[p].Matches(key)
    ensures multiset(table)[table[p]] == 1
  {
    assert table == table[..p] + [table[p]] + table[p + 1..];
    assert table[p] !in table[..p] && table[p] !in table[p + 1..];
  }
}
