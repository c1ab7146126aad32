// The gateway's deposit records: the two stores behind one interface and the
// routes that change a record.
module Store {
  import opened Wrappers
  import opened Keys
  import opened Radix
  import opened KeyText
  import opened Vault

  datatype Record = Record(
    id: string,
    institutionId: string,
    stealth: Key32,
    createdAt: int,
    expiresAt: int,
    state: DepositState,
    onChainAddress: Option<Address>,
    onChainAmount: Option<nat>,
    onChainState: Option<DepositState>,
    onChainObservedAt: Option<int>)

  datatype Observation = Observation(address: Address, amount: nat, state: DepositState)

  // The record after an observation: its own state follows the chain except
  // that a pending observation leaves it alone.
  function Observed(r: Record, o: Observation, at: int): Record {
    r.(onChainAddress := Some(o.address),
       onChainAmount := Some(o.amount),
       onChainState := Some(o.state),
       onChainObservedAt := Some(at),
       state := if o.state == Pending then r.state else o.state)
  }

  // The first record whose key has this hex; the length if there is none.
  function FirstWith(records: seq<Record>, hex: string): (i: nat)
    ensures i <= |records|
    ensures i < |records| ==> BytesToHex(records[i].stealth) == hex
    ensures forall j :: 0 <= j < i ==> BytesToHex(records[j].stealth) != hex
  {
    if records == [] then 0
    else if BytesToHex(records[0].stealth) == hex then 0
    else 1 + FirstWith(records[1..], hex)
  }

  // The contract of FirstWith leaves one position only.
  lemma FirstWithIs(records: seq<Record>, hex: string, i: nat)
    requires i <= |records| && (i < |records| ==> BytesToHex(records[i].stealth) == hex)
    requires forall j :: 0 <= j < i ==> BytesToHex(records[j].stealth) != hex
    ensures FirstWith(records, hex) == i
  {
    hide BytesToHex, FirstWith;
  }

  function ApplyMatch(records: seq<Record>, hex: string, o: Observation, at: int): seq<Record> {
    var i := FirstWith(records, hex);
    if i < |records| then records[i := Observed(records[i], o, at)] else records
  }

  function IndexOfId(records: seq<Record>, id: string): (i: nat)
    ensures i <= |records|
    ensures i < |records| ==> records[i].id == id
    ensures forall j :: 0 <= j < i ==> records[j].id != id
  {
    if records == [] then 0
    else if records[0].id == id then 0
    else 1 + IndexOfId(records[1..], id)
  }

  function WithState(records: seq<Record>, id: string, state: DepositState): seq<Record> {
    var i := IndexOfId(records, id);
    if i < |records| then records[i := records[i].(state := state)] else records
  }

  function DepositId(n: nat): string {
    "dep_" + DecimalText(Digits(n, 10))
  }

  function DecimalText(ds: seq<nat>): (s: string)
    requires Valid(ds, 10)
    ensures |s| == |ds|
  {
    seq(|ds|, i requires 0 <= i < |ds| => HEX_DIGITS[ds[i]])
  }

  lemma DepositIdInjective(m: nat, n: nat)
    requires DepositId(m) == DepositId(n)
    ensures m == n
  {
    var a, b := Digits(m, 10), Digits(n, 10);
    assert DepositId(m)[4..] == DecimalText(a) && DepositId(n)[4..] == DecimalText(b);
    assert DistinctChars(HEX_DIGITS);
    forall i | 0 <= i < |a| ensures a[i] == b[i] {
      assert DecimalText(a)[i] == DecimalText(b)[i];
    }
    assert a == b;
    ValueOfDigits(m, 10);
    ValueOfDigits(n, 10);
  }

  function NewRecord(n: nat, institutionId: string, stealth: Key32, expiresAt: int, now: int): Record {
    Record(DepositId(n), institutionId, stealth, now, expiresAt, Pending, None, None, None, None)
  }

  class DepositRecord {
    const id: string
    const institutionId: string
    const stealth: Key32
    const createdAt: int
    const expiresAt: int
    var state: DepositState
    var onChainAddress: Option<Address>
    var onChainAmount: Option<nat>
    var onChainState: Option<DepositState>
    var onChainObservedAt: Option<int>

    constructor (id: string, institutionId: string, stealth: Key32, createdAt: int, expiresAt: int)
      ensures View() == Record(id, institutionId, stealth, createdAt, expiresAt, Pending, None, None, None, None)
    {
      this.id, this.institutionId, this.stealth := id, institutionId, stealth;
      this.createdAt, this.expiresAt, this.state := createdAt, expiresAt, Pending;
      onChainAddress, onChainAmount, onChainState, onChainObservedAt := None, None, None, None;
    }

    function View(): Record
      reads this
    {
      Record(id, institutionId, stealth, createdAt, expiresAt, state, onChainAddress, onChainAmount, onChainState,
             onChainObservedAt)
    }

    method Observe(o: Observation, now: int)
      modifies this
      ensures View() == Observed(old(View()), o, now)
    {
      onChainAddress := Some(o.address);
      onChainAmount := Some(o.amount);
      onChainState := Some(o.state);
      onChainObservedAt := Some(now);
      if o.state == Approved || o.state == Rejected || o.state == Released || o.state == Refunded || o.state == Expired {
        state := o.state;
      }
    }
  }

  // Records in insertion order; ids are handed out by a counter.
  class MemoryStore {
    var deposits: seq<DepositRecord>
    var nextDepositSeq: nat

    ghost predicate Valid()
      reads this, deposits
    {
      && nextDepositSeq == |deposits| + 1
      && (forall i, j :: 0 <= i < j < |deposits| ==> deposits[i] != deposits[j])
      && (forall i :: 0 <= i < |deposits| ==> deposits[i].id == DepositId(i + 1))
    }

    ghost function View(): (records: seq<Record>)
      reads this, deposits
      ensures |records| == |deposits|
      ensures forall i :: 0 <= i < |records| ==> records[i] == deposits[i].View()
    {
      seq(|deposits|, i requires 0 <= i < |deposits| reads this, deposits => deposits[i].View())
    }

    constructor ()
      ensures Valid() && View() == []
    {
      deposits, nextDepositSeq := [], 1;
    }

    method Find(id: string) returns (i: nat)
      ensures i == IndexOfId(View(), id)
    {
      i := 0;
      while i < |deposits| && deposits[i].id != id
        invariant i <= |deposits|
        invariant forall j :: 0 <= j < i ==> View()[j].id != id
      {
        i := i + 1;
      }
    }

    // The next id is not in use, so storing a record under it appends.
    lemma NextIdIsFresh()
      requires Valid()
      ensures IndexOfId(View(), DepositId(nextDepositSeq)) == |deposits|
    {
      var i := IndexOfId(View(), DepositId(nextDepositSeq));
      if i < |deposits| {
        DepositIdInjective(i + 1, nextDepositSeq);
      }
    }

    method CreateDeposit(institutionId: string, stealth: Key32, expiresAt: int, now: int) returns (full: DepositRecord)
      requires Valid()
      modifies this
      ensures Valid() && fresh(full)
      ensures View() == old(View()) + [NewRecord(old(nextDepositSeq), institutionId, stealth, expiresAt, now)]
      ensures deposits == old(deposits) + [full]
    {
      NextIdIsFresh();
      var id := DepositId(nextDepositSeq);
      nextDepositSeq := nextDepositSeq + 1;
      full := new DepositRecord(id, institutionId, stealth, now, expiresAt);
      deposits := deposits + [full];
      assert View() == old(View()) + [full.View()];
    }

    method SetDepositState(id: string, state: DepositState) returns (found: Option<DepositRecord>)
      requires Valid()
      modifies deposits
      ensures Valid() && View() == WithState(old(View()), id, state)
      ensures found == (if IndexOfId(old(View()), id) < |deposits|
                        then Some(deposits[IndexOfId(old(View()), id)]) else None)
    {
      var i := Find(id);
      if i == |deposits| {
        return None;
      }
      deposits[i].state := state;
      return Some(deposits[i]);
    }

    method ApplyOnChainMatch(hex: string, o: Observation, now: int) returns (found: Option<DepositRecord>)
      requires Valid()
      modifies deposits
      ensures Valid() && View() == ApplyMatch(old(View()), hex, o, now)
      ensures found == (if FirstWith(old(View()), hex) < |deposits|
                        then Some(deposits[FirstWith(old(View()), hex)]) else None)
    {
      hide BytesToHex, FirstWith;
      for i := 0 to |deposits|
        invariant Valid() && View() == old(View())
        invariant forall j :: 0 <= j < i ==> BytesToHex(View()[j].stealth) != hex
      {
        var d := deposits[i];
        if BytesToHex(d.stealth) == hex {
          FirstWithIs(View(), hex, i);
          d.Observe(o, now);
          assert View() == old(View())[i := Observed(old(View())[i], o, now)];
          return Some(d);
        }
      }
      FirstWithIs(View(), hex, |deposits|);
      return None;
    }
  }

  // -------------------------------------------------------------------------
  // The Postgres store updates every row of a key

  function HexValue(c: char): int {
    if '0' <= c <= '9' then c as int - '0' as int
    else if 'a' <= c <= 'f' then c as int - 'a' as int + 10
    else if 'A' <= c <= 'F' then c as int - 'A' as int + 10
    else -1
  }

  // `Buffer.from(hex, "hex")`: pairs of digits up to the first that is none.
  function HexToBytes(hex: string): seq<Byte> {
    if |hex| < 2 || HexValue(hex[0]) < 0 || HexValue(hex[1]) < 0 then []
    else [16 * HexValue(hex[0]) + HexValue(hex[1])] + HexToBytes(hex[2..])
  }

  lemma {:induction false} HexRoundTrip(bytes: seq<Byte>)
    ensures HexToBytes(BytesToHex(bytes)) == bytes
  {
    if bytes != [] {
      var hex := BytesToHex(bytes);
      HexDigit(bytes[0] / 16);
      HexDigit(bytes[0] % 16);
      assert hex[2..] == BytesToHex(bytes[1..]);
      HexRoundTrip(bytes[1..]);
    }
  }

  lemma HexDigit(d: nat)
    requires d < 16
    ensures HexValue(HEX_DIGITS[d]) == d
  {
  }

  function UpdateAll(rows: seq<Record>, key: seq<Byte>, o: Observation, at: int): seq<Record> {
    seq(|rows|, i requires 0 <= i < |rows| => if rows[i].stealth == key then Observed(rows[i], o, at) else rows[i])
  }

  // The updated rows, in the order they are visited.
  function Returned(rows: seq<Record>, key: seq<Byte>, o: Observation, at: int): seq<Record> {
    if rows == [] then []
    else
      Returned(rows[..|rows| - 1], key, o, at)
      + (if rows[|rows| - 1].stealth == key then [Observed(rows[|rows| - 1], o, at)] else [])
  }

  // The rows in the order the server visits them.
  class PostgresStore {
    var rows: seq<Record>

    method ApplyOnChainMatch(hex: string, o: Observation, now: int) returns (found: Option<Record>)
      modifies this
      ensures rows == UpdateAll(old(rows), HexToBytes(hex), o, now)
      ensures var returned := Returned(old(rows), HexToBytes(hex), o, now);
              found == if returned == [] then None else Some(returned[0])
    {
      var stealthBuf := HexToBytes(hex);
      var returned: seq<Record> := [];
      for i := 0 to |rows|
        invariant |rows| == |old(rows)|
        invariant rows[..i] == UpdateAll(old(rows), stealthBuf, o, now)[..i]
        invariant rows[i..] == old(rows)[i..]
        invariant returned == Returned(old(rows)[..i], stealthBuf, o, now)
      {
        assert old(rows)[..i + 1][..i] == old(rows)[..i];
        if rows[i].stealth == stealthBuf {
          rows := rows[i := Observed(rows[i], o, now)];
          returned := returned + [rows[i]];
        }
      }
      assert old(rows)[..|rows|] == old(rows);
      return if returned == [] then None else Some(returned[0]);
    }
  }

  ghost predicate OneRecordOf(records: seq<Record>, key: Key32) {
    forall i, j :: 0 <= i < j < |records| && records[i].stealth == key ==> records[j].stealth != key
  }

  lemma FirstOfKey(records: seq<Record>, key: Key32)
    ensures var i := FirstWith(records, BytesToHex(key));
            && (i < |records| ==> records[i].stealth == key)
            && forall j :: 0 <= j < i ==> records[j].stealth != key
  {
    var i := FirstWith(records, BytesToHex(key));
    if i < |records| {
      HexInjective(records[i].stealth, key);
    }
  }

  ghost predicate IsFirstOf(rows: seq<Record>, key: seq<Byte>, i: nat) {
    i <= |rows| && (i < |rows| ==> rows[i].stealth == key) && forall j :: 0 <= j < i ==> rows[j].stealth != key
  }

  // The first row returned is the first row of the key.
  lemma {:induction false} ReturnedFirst(rows: seq<Record>, key: seq<Byte>, i: nat, o: Observation, at: int)
    requires IsFirstOf(rows, key, i)
    ensures var returned := Returned(rows, key, o, at);
            if i < |rows| then returned != [] && returned[0] == Observed(rows[i], o, at) else returned == []
  {
    if rows != [] {
      ReturnedFirst(rows[..|rows| - 1], key, if i < |rows| then i else i - 1, o, at);
    }
  }

  // Whatever they change, both stores return the same record, or none.
  lemma StoresReturnSame(records: seq<Record>, key: Key32, o: Observation, at: int)
    ensures var i := FirstWith(records, BytesToHex(key));
            var returned := Returned(records, HexToBytes(BytesToHex(key)), o, at);
            if i < |records| then returned != [] && returned[0] == ApplyMatch(records, BytesToHex(key), o, at)[i]
            else returned == []
  {
    hide BytesToHex, FirstWith, Returned;
    HexRoundTrip(key);
    FirstOfKey(records, key);
    ReturnedFirst(records, key, FirstWith(records, BytesToHex(key)), o, at);
  }

  // For every observation the first-match store and the update-all store make
  // the same change, exactly when no two records have the key.
  lemma StoresAgree(records: seq<Record>, key: Key32)
    ensures OneRecordOf(records, key)
            <==> forall o, at ::
                   ApplyMatch(records, BytesToHex(key), o, at)
                   == UpdateAll(records, HexToBytes(BytesToHex(key)), o, at)
  {
    HexRoundTrip(key);
    FirstOfKey(records, key);
    var hex := BytesToHex(key);
    if OneRecordOf(records, key) {
      forall o, at ensures ApplyMatch(records, hex, o, at) == UpdateAll(records, key, o, at) {
      }
    } else {
      var i, j :| 0 <= i < j < |records| && records[i].stealth == key && records[j].stealth == key;
      var seen := match records[j].onChainObservedAt case Some(t) => t case None => 0;
      var o := Observation(DEFAULT_KEY, 0, Pending);
      assert UpdateAll(records, key, o, seen + 1)[j].onChainObservedAt == Some(seen + 1);
      assert FirstWith(records, hex) <= i;
      assert ApplyMatch(records, hex, o, seen + 1)[j] == records[j];
    }
  }

  // -------------------------------------------------------------------------
  // Routes

  datatype Response =
    | Done(record: Record)
    | NotFound
    | Conflict(state: DepositState)
    | BadRequest
    | ServerError

  function ReleaseRoute(records: seq<Record>, institutionId: string, id: string): (seq<Record>, Response) {
    var i := IndexOfId(records, id);
    if i == |records| || records[i].institutionId != institutionId then (records, NotFound)
    else if records[i].state != Approved then (records, Conflict(records[i].state))
    else (WithState(records, id, Released), Done(records[i].(state := Released)))
  }

  function RefundRoute(records: seq<Record>, institutionId: string, id: string, now: int): (seq<Record>, Response) {
    var i := IndexOfId(records, id);
    if i == |records| || records[i].institutionId != institutionId then (records, NotFound)
    else
      var r := records[i];
      var allowed := r.state == Rejected || r.state == Expired || (r.state == Pending && now >= r.expiresAt);
      if !allowed then (records, Conflict(r.state))
      else (WithState(records, id, Refunded), Done(r.(state := Refunded)))
  }

  method PostRelease(store: MemoryStore, institutionId: string, id: string) returns (r: Response)
    requires store.Valid()
    modifies store.deposits
    ensures store.Valid() && (store.View(), r) == ReleaseRoute(old(store.View()), institutionId, id)
  {
    var i := store.Find(id);
    if i == |store.deposits| || store.deposits[i].institutionId != institutionId {
      return NotFound;
    }
    if store.deposits[i].state != Approved {
      return Conflict(store.deposits[i].state);
    }
    var updated := store.SetDepositState(id, Released);
    return Done(updated.value.View());
  }

  method PostRefund(store: MemoryStore, institutionId: string, id: string, now: int) returns (r: Response)
    requires store.Valid()
    modifies store.deposits
    ensures store.Valid() && (store.View(), r) == RefundRoute(old(store.View()), institutionId, id, now)
  {
    var i := store.Find(id);
    if i == |store.deposits| || store.deposits[i].institutionId != institutionId {
      return NotFound;
    }
    var dep := store.deposits[i];
    var allowed := dep.state == Rejected || dep.state == Expired || (dep.state == Pending && now >= dep.expiresAt);
    if !allowed {
      return Conflict(dep.state);
    }
    var updated := store.SetDepositState(id, Refunded);
    return Done(updated.value.View());
  }
}
