// Lamport and token balances, and the checked transfer between two accounts
// that may be the same account.
module Ledger {
  import opened Wrappers
  import opened Keys
  import opened Sums

  const U8_MAX: int := 0xFF
  const U64_MAX: int := 0xFFFF_FFFF_FFFF_FFFF
  const I64_MAX: int := 0x7FFF_FFFF_FFFF_FFFF

  type U8 = x: int | 0 <= x <= U8_MAX
  type U64 = x: int | 0 <= x <= U64_MAX
  type I64 = x: int | -I64_MAX - 1 <= x <= I64_MAX

  datatype LedgerError = InsufficientFunds | ArithmeticOverflow

  type Lamports = map<Address, U64>

  function Balance(l: Lamports, a: Address): U64 {
    if a in l then l[a] else 0
  }

  // Two writes in the order the program performs them: the debit is stored
  // before the credited balance is read, so `from == to` is not a special case.
  function Move(l: Lamports, from: Address, to: Address, amount: U64): Result<Lamports, LedgerError> {
    var current := Balance(l, from);
    :- Require(amount <= current, InsufficientFunds);
    var debited := l[from := current - amount];
    :- Require(Balance(debited, to) + amount <= U64_MAX, ArithmeticOverflow);
    Ok(debited[to := Balance(debited, to) + amount])
  }

  // What `init` charges the payer: the part of the rent the address lacks.
  function Shortfall(l: Lamports, a: Address, rent: U64): U64 {
    if Balance(l, a) < rent then rent - Balance(l, a) else 0
  }

  function Identity(): U64 -> int {
    (x: U64) => x
  }

  ghost function TotalLamports(l: Lamports): int {
    SumBy<Address, U64>(l, Identity())
  }

  // A transfer shifts exactly `amount`, touches nothing else and keeps the total.
  lemma MoveEffect(l: Lamports, from: Address, to: Address, amount: U64)
    requires Move(l, from, to, amount).Ok?
    ensures var l2 := Move(l, from, to, amount).value;
            && TotalLamports(l2) == TotalLamports(l)
            && (forall a :: Balance(l2, a) == Balance(l, a)
                                              - (if a == from then amount else 0)
                                              + (if a == to then amount else 0))
  {
    var debited := l[from := Balance(l, from) - amount];
    SumByPut<Address, U64>(l, Identity(), from, Balance(l, from) - amount);
    SumByPut<Address, U64>(debited, Identity(), to, Balance(debited, to) + amount);
  }

  // A transfer between funded accounts cannot fail while the supply fits in a u64.
  lemma MoveSucceeds(l: Lamports, from: Address, to: Address, amount: U64)
    requires TotalLamports(l) <= U64_MAX
    ensures Move(l, from, to, amount).Ok? <==> amount <= Balance(l, from)
  {
    if amount <= Balance(l, from) && from != to && from in l && to in l {
      SumByTwo<Address, U64>(l, Identity(), from, to);
    }
  }

  // Token accounts as the token program keeps them.
  datatype TokenAccount = TokenAccount(mint: Address, owner: Address, amount: U64)

  type Tokens = map<Address, TokenAccount>

  function MoveTokens(t: Tokens, from: Address, to: Address, amount: U64): Result<Tokens, LedgerError>
    requires from in t && to in t
  {
    var source := t[from];
    :- Require(amount <= source.amount, InsufficientFunds);
    var debited := t[from := source.(amount := source.amount - amount)];
    :- Require(debited[to].amount + amount <= U64_MAX, ArithmeticOverflow);
    Ok(debited[to := debited[to].(amount := debited[to].amount + amount)])
  }

  function AmountOf(mint: Address): TokenAccount -> int {
    (t: TokenAccount) => if t.mint == mint then t.amount else 0
  }

  ghost function TokenSupply(t: Tokens, mint: Address): int {
    SumBy(t, AmountOf(mint))
  }

  // A token transfer between funded accounts of one mint cannot fail while the
  // supply of the mint fits in a u64.
  lemma MoveTokensSucceeds(t: Tokens, from: Address, to: Address, amount: U64)
    requires from in t && to in t && t[from].mint == t[to].mint && TokenSupply(t, t[from].mint) <= U64_MAX
    ensures MoveTokens(t, from, to, amount).Ok? <==> amount <= t[from].amount
  {
    if amount <= t[from].amount && from != to {
      SumByTwo(t, AmountOf(t[from].mint), from, to);
    }
  }

  // A transfer inside one mint changes no supply, not even when both ends are
  // the same account.
  lemma MoveTokensEffect(t: Tokens, from: Address, to: Address, amount: U64)
    requires from in t && to in t && t[from].mint == t[to].mint
    requires MoveTokens(t, from, to, amount).Ok?
    ensures var t2 := MoveTokens(t, from, to, amount).value;
            && t2.Keys == t.Keys
            && (forall k :: TokenSupply(t2, k) == TokenSupply(t, k))
            && (forall a :: a in t ==>
                              && t2[a].mint == t[a].mint && t2[a].owner == t[a].owner
                              && t2[a].amount == t[a].amount
                                                 - (if a == from then amount else 0)
                                                 + (if a == to then amount else 0))
  {
    var t2 := MoveTokens(t, from, to, amount).value;
    var debited := t[from := t[from].(amount := t[from].amount - amount)];
    forall k ensures TokenSupply(t2, k) == TokenSupply(t, k) {
      SumByPut(t, AmountOf(k), from, debited[from]);
      SumByPut(debited, AmountOf(k), to, t2[to]);
    }
  }
}
