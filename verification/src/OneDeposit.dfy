// Two properties of the mirror that hold exactly as long as the chain has one
// recognised deposit per stealth key.
module OneDeposit {
  import opened Wrappers
  import opened Keys
  import opened Vault
  import opened Curve
  import opened Indexer
  import opened Store
  import opened Webhook
  import opened Mirror
  import opened Resync

  // -------------------------------------------------------------------------
  // A record never turns to another deposit

  predicate ChainFree(events: seq<Event>) {
    forall i :: 0 <= i < |events| ==> !events[i].Chain?
  }

  // While the chain stands still, every record moves ahead and keeps showing the
  // deposit it shows, between any two moments.
  ghost predicate NeverTurns<P>(c: Curve<P>, slices: seq<Slice<P>>, sys: System)
    requires sys.worlds != []
  {
    forall a, b :: ChainFree(a) && ChainFree(b) ==>
                     AllMovedAhead(Run(c, slices, sys, a).records, Run(c, slices, sys, a + b).records)
  }

  lemma {:induction false} ChainFreeKeepsWorlds<P>(c: Curve<P>, slices: seq<Slice<P>>, sys: System, events: seq<Event>)
    requires sys.worlds != [] && ChainFree(events)
    ensures Run(c, slices, sys, events).worlds == sys.worlds
  {
    if events != [] {
      ChainFreeKeepsWorlds(c, slices, sys, events[..|events| - 1]);
      assert !events[|events| - 1].Chain?;
    }
  }

  lemma OneDepositNeverTurns<P>(c: Curve<P>, slices: seq<Slice<P>>, sys: System, a: seq<Event>, b: seq<Event>)
    requires SystemOk(c, slices, sys) && OneDepositPerKey(c, slices, Now(sys)) && ChainFree(a) && ChainFree(b)
    ensures AllMovedAhead(Run(c, slices, sys, a).records, Run(c, slices, sys, a + b).records)
  {
    hide Run, Next, OneDepositPerKey, AllMovedAhead;
    RunOk(c, slices, sys, a);
    RunConcat(c, slices, sys, a, b);
    ChainFreeKeepsWorlds(c, slices, sys, a + b);
    MirrorIsMonotone(c, slices, Run(c, slices, sys, a), b);
  }

  function Posts(n: nat): seq<Event> {
    seq(n, _ => Deliver(0))
  }

  // Open a record for the key, begin a pass and post its first n matches.
  function Showing(key: Key32, accounts: seq<Account>, n: nat): seq<Event> {
    [CreateDeposit("", key, 0, 0), BeginPass(accounts)] + Posts(n)
  }

  // The system when the pass of `Showing` has begun.
  function Begun<P>(c: Curve<P>, slices: seq<Slice<P>>, sys: System, accounts: seq<Account>, key: Key32): System
    requires sys.worlds != [] && ScanPass(c, slices, accounts).Ok?
  {
    sys.(records := sys.records + [NewRecord(|sys.records| + 1, "", key, 0, 0)],
         seen := |sys.worlds| - 1,
         queue := ScanPass(c, slices, accounts).value)
  }

  lemma BegunByShowing<P>(c: Curve<P>, slices: seq<Slice<P>>, sys: System, accounts: seq<Account>, key: Key32)
    requires sys.worlds != [] && sys.queue == [] && Lists(accounts, Now(sys)) && ScanPass(c, slices, accounts).Ok?
    ensures Next(c, slices, Next(c, slices, sys, CreateDeposit("", key, 0, 0)), BeginPass(accounts))
            == Begun(c, slices, sys, accounts, key)
  {
    hide DetectedRoute, ReleaseRoute, RefundRoute;
    PassFillsQueue(c, slices, Next(c, slices, sys, CreateDeposit("", key, 0, 0)), accounts);
  }

  lemma ShowingRun<P>(c: Curve<P>, slices: seq<Slice<P>>, sys: System, accounts: seq<Account>, key: Key32, n: nat)
    requires sys.worlds != [] && sys.queue == [] && Lists(accounts, Now(sys)) && ScanPass(c, slices, accounts).Ok?
    ensures Run(c, slices, sys, Showing(key, accounts, n))
            == Run(c, slices, Begun(c, slices, sys, accounts, key), Posts(n))
  {
    hide Run, Next;
    BegunByShowing(c, slices, sys, accounts, key);
    RunOfTwo(c, slices, sys, CreateDeposit("", key, 0, 0), BeginPass(accounts));
    RunConcat(c, slices, sys, [CreateDeposit("", key, 0, 0), BeginPass(accounts)], Posts(n));
  }

  // After the match number n - 1 the record of its key shows it.
  lemma PostedShows<P>(c: Curve<P>, slices: seq<Slice<P>>, begun: System, n: nat, i: nat)
    requires begun.worlds != [] && 0 < n <= |begun.queue| && Meets(begun.records, i, begun.queue[n - 1])
    ensures var end := Run(c, slices, begun, Posts(n));
            |end.records| == |begun.records| && Shows(end.records[i], begun.queue[n - 1])
  {
    hide Run, Next;
    DeliveriesRun(c, slices, begun, Posts(n));
    RunDrains(c, slices, begun, Posts(n));
    assert ViewAfter(begun.records, i, begun.queue, n, Run(c, slices, begun, Posts(n)).records[i]);
  }

  // Where the pass lists a recognised deposit.
  lemma PassIsComplete<P>(c: Curve<P>, slices: seq<Slice<P>>, w: World, accounts: seq<Account>, a: Address)
    returns (k: nat)
    requires Lists(accounts, w) && ScanPass(c, slices, accounts).Ok? && Recognised(c, slices, w, a)
    ensures var matches := ScanPass(c, slices, accounts).value;
            k < |matches| && matches[k].depositPubkey == a && matches[k].stealthPubkey == w.deposits[a].stealth
  {
    var matches := ScanPass(c, slices, accounts).value;
    var at := PassRefines(c, slices, accounts);
    var i :| 0 <= i < |accounts| && accounts[i] == Account(a, Some(w.deposits[a]));
    assert FoundAt(c, slices, accounts[i], Scan(c, slices, a, w.deposits[a]).value.value);
    k :| 0 <= k < |at| && at[k] == i;
    assert FoundAt(c, slices, accounts[at[k]], matches[k]);
    var _ := MatchShape(c, slices, a, w.deposits[a]);
  }

  // After `Showing` the record of the key shows the last match that was posted.
  lemma ShowingShows<P>(c: Curve<P>, slices: seq<Slice<P>>, sys: System, accounts: seq<Account>, key: Key32, k: nat)
    returns (i: nat)
    requires sys.worlds != [] && sys.queue == [] && Lists(accounts, Now(sys)) && ScanPass(c, slices, accounts).Ok?
    requires k < |ScanPass(c, slices, accounts).value| && ScanPass(c, slices, accounts).value[k].stealthPubkey == key
    ensures var records := Run(c, slices, sys, Showing(key, accounts, k + 1)).records;
            && i < |records| && i == FirstOf(Begun(c, slices, sys, accounts, key).records, key)
            && Shows(records[i], ScanPass(c, slices, accounts).value[k])
  {
    hide Run, Next, Lists, ScanPass, Showing;
    var begun := Begun(c, slices, sys, accounts, key);
    i := FirstOf(begun.records, key);
    assert begun.records[|sys.records|].stealth == key;
    PostedShows(c, slices, begun, k + 1, i);
    ShowingRun(c, slices, sys, accounts, key, k + 1);
  }

  // Two matches of one key in one pass: a record shows the one and then the other.
  lemma SecondMatchTurns<P>(c: Curve<P>, slices: seq<Slice<P>>, sys: System, accounts: seq<Account>, k: nat, k2: nat)
    requires sys.worlds != [] && sys.queue == [] && Lists(accounts, Now(sys)) && ScanPass(c, slices, accounts).Ok?
    requires var matches := ScanPass(c, slices, accounts).value;
             && k < k2 < |matches| && matches[k].stealthPubkey == matches[k2].stealthPubkey
             && matches[k].depositPubkey != matches[k2].depositPubkey
    ensures !NeverTurns(c, slices, sys)
  {
    hide Run, Next, Lists, ScanPass, Begun, FirstOf;
    var key := ScanPass(c, slices, accounts).value[k].stealthPubkey;
    var i := ShowingShows(c, slices, sys, accounts, key, k);
    var i2 := ShowingShows(c, slices, sys, accounts, key, k2);
    var a, b := Showing(key, accounts, k + 1), Posts(k2 - k);
    assert a + b == Showing(key, accounts, k2 + 1);
    assert ChainFree(a) && ChainFree(b);
    assert !MovedAhead(Run(c, slices, sys, a).records[i], Run(c, slices, sys, a + b).records[i]);
  }

  lemma TwoDepositsTurn<P>(c: Curve<P>, slices: seq<Slice<P>>, sys: System, accounts: seq<Account>, a: Address,
                           b: Address)
    requires sys.worlds != [] && sys.queue == [] && Lists(accounts, Now(sys)) && ScanPass(c, slices, accounts).Ok?
    requires Recognised(c, slices, Now(sys), a) && Recognised(c, slices, Now(sys), b) && a != b
    requires Now(sys).deposits[a].stealth == Now(sys).deposits[b].stealth
    ensures !NeverTurns(c, slices, sys)
  {
    var k := PassIsComplete(c, slices, Now(sys), accounts, a);
    var k2 := PassIsComplete(c, slices, Now(sys), accounts, b);
    if k < k2 {
      SecondMatchTurns(c, slices, sys, accounts, k, k2);
    } else {
      SecondMatchTurns(c, slices, sys, accounts, k2, k);
    }
  }

  // From any consistent state with nothing left to post and a listing that can
  // be scanned: records keep to their deposits exactly when the chain has one
  // recognised deposit per stealth key.
  lemma NeverTurnsIffOneDeposit<P>(c: Curve<P>, slices: seq<Slice<P>>, sys: System, accounts: seq<Account>)
    requires SystemOk(c, slices, sys) && sys.queue == []
    requires Lists(accounts, Now(sys)) && ScanPass(c, slices, accounts).Ok?
    ensures OneDepositPerKey(c, slices, Now(sys)) <==> NeverTurns(c, slices, sys)
  {
    if OneDepositPerKey(c, slices, Now(sys)) {
      forall a, b | ChainFree(a) && ChainFree(b)
        ensures AllMovedAhead(Run(c, slices, sys, a).records, Run(c, slices, sys, a + b).records)
      {
        OneDepositNeverTurns(c, slices, sys, a, b);
      }
    } else {
      var a, b :| && Recognised(c, slices, Now(sys), a) && Recognised(c, slices, Now(sys), b)
                  && Now(sys).deposits[a].stealth == Now(sys).deposits[b].stealth && a != b;
      TwoDepositsTurn(c, slices, sys, accounts, a, b);
    }
  }

  // -------------------------------------------------------------------------
  // The order of a listing does not matter

  // Two passes over two listings of the same chain, posted in full one after the
  // other, from any moment that can be reached without chain steps.
  ghost predicate AreTwoPasses<P>(c: Curve<P>, slices: seq<Slice<P>>, sys: System, before: seq<Event>,
                                  accounts: seq<Account>, posts: seq<Event>, accounts2: seq<Account>,
                                  posts2: seq<Event>)
    requires sys.worlds != []
  {
    && ChainFree(before)
    && var start := Run(c, slices, sys, before);
       && IsFullPass(c, slices, start, accounts, posts)
       && IsFullPass(c, slices, Run(c, slices, start, PassAndPosts(accounts, posts)), accounts2, posts2)
  }

  // The second of the two passes changes observation times only.
  ghost predicate SecondChangesTimesOnly<P>(c: Curve<P>, slices: seq<Slice<P>>, sys: System, before: seq<Event>,
                                            accounts: seq<Account>, posts: seq<Event>, accounts2: seq<Account>,
                                            posts2: seq<Event>)
    requires sys.worlds != []
  {
    var once := Run(c, slices, Run(c, slices, sys, before), PassAndPosts(accounts, posts));
    var twice := Run(c, slices, once, PassAndPosts(accounts2, posts2));
    && |twice.records| == |once.records|
    && forall i :: 0 <= i < |once.records| ==> TimesOnly(once.records[i], twice.records[i])
  }

  // Whatever the order in which the deposits are listed.
  ghost predicate OrderFree<P>(c: Curve<P>, slices: seq<Slice<P>>, sys: System)
    requires sys.worlds != []
  {
    forall before, accounts, posts, accounts2, posts2 ::
      AreTwoPasses(c, slices, sys, before, accounts, posts, accounts2, posts2) ==>
        SecondChangesTimesOnly(c, slices, sys, before, accounts, posts, accounts2, posts2)
  }

  // Two listings of one chain can be scanned or not together.
  lemma ScansAlike<P>(c: Curve<P>, slices: seq<Slice<P>>, w: World, accounts: seq<Account>, accounts2: seq<Account>)
    requires Lists(accounts, w) && Lists(accounts2, w) && ScanPass(c, slices, accounts).Ok?
    ensures ScanPass(c, slices, accounts2).Ok?
  {
    var at := PassRefines(c, slices, accounts);
    var at2 := PassRefines(c, slices, accounts2);
    if slices != [] {
      forall i | 0 <= i < |accounts2| && accounts2[i].data.Some?
        ensures c.decompress(accounts2[i].data.value.ephemeral).Some?
      {
        var a := accounts2[i].pubkey;
        var k :| 0 <= k < |accounts| && accounts[k] == Account(a, Some(w.deposits[a]));
      }
    }
  }

  lemma OneDepositSecondPass<P>(c: Curve<P>, slices: seq<Slice<P>>, start: System, accounts: seq<Account>,
                                posts: seq<Event>, accounts2: seq<Account>, posts2: seq<Event>, i: nat)
    requires IsFullPass(c, slices, start, accounts, posts) && i < |start.records|
    requires OneDepositPerKey(c, slices, Now(start))
    requires ScanPass(c, slices, accounts).Ok? && ScanPass(c, slices, accounts2).Ok?
    requires IsFullPass(c, slices, Run(c, slices, start, PassAndPosts(accounts, posts)), accounts2, posts2)
    ensures var once := Run(c, slices, start, PassAndPosts(accounts, posts));
            var twice := Run(c, slices, once, PassAndPosts(accounts2, posts2));
            && |twice.records| == |once.records| == |start.records|
            && TimesOnly(once.records[i], twice.records[i])
  {
    hide Run, Next, ScanPass, PassAndPosts, OneDepositPerKey, Lists, UpToDate;
    var once := Run(c, slices, start, PassAndPosts(accounts, posts));
    FullPassSyncs(c, slices, start, accounts, posts);
    FullPassSyncs(c, slices, once, accounts2, posts2);
    var twice := Run(c, slices, once, PassAndPosts(accounts2, posts2));
    OneDepositTimesOnly(c, slices, Now(start), accounts, accounts2, start.records, once.records, twice.records, i);
  }

  lemma OneDepositOrderFree<P>(c: Curve<P>, slices: seq<Slice<P>>, sys: System, listing: seq<Account>,
                               before: seq<Event>, accounts: seq<Account>, posts: seq<Event>,
                               accounts2: seq<Account>, posts2: seq<Event>)
    requires sys.worlds != [] && OneDepositPerKey(c, slices, Now(sys))
    requires Lists(listing, Now(sys)) && ScanPass(c, slices, listing).Ok?
    requires AreTwoPasses(c, slices, sys, before, accounts, posts, accounts2, posts2)
    ensures SecondChangesTimesOnly(c, slices, sys, before, accounts, posts, accounts2, posts2)
  {
    hide Run, Next, ScanPass, PassAndPosts, OneDepositPerKey, Lists;
    ChainFreeKeepsWorlds(c, slices, sys, before);
    var start := Run(c, slices, sys, before);
    var once := Run(c, slices, start, PassAndPosts(accounts, posts));
    ScansAlike(c, slices, Now(sys), listing, accounts);
    FullPassSyncs(c, slices, start, accounts, posts);
    ScansAlike(c, slices, Now(sys), listing, accounts2);
    FullPassSyncs(c, slices, once, accounts2, posts2);
    forall i | 0 <= i < |once.records|
      ensures TimesOnly(once.records[i], Run(c, slices, once, PassAndPosts(accounts2, posts2)).records[i])
    {
      OneDepositSecondPass(c, slices, start, accounts, posts, accounts2, posts2, i);
    }
  }

  ghost predicate IsSwap(accounts: seq<Account>, j: nat, j2: nat, accounts2: seq<Account>) {
    j < j2 < |accounts| && accounts2 == accounts[j := accounts[j2]][j2 := accounts[j]]
  }

  lemma SwapLists(accounts: seq<Account>, w: World, j: nat, j2: nat, accounts2: seq<Account>)
    requires Lists(accounts, w) && IsSwap(accounts, j, j2, accounts2)
    ensures Lists(accounts2, w)
  {
    forall a | a in w.deposits
      ensures exists i :: 0 <= i < |accounts2| && accounts2[i] == Account(a, Some(w.deposits[a]))
    {
      var i :| 0 <= i < |accounts| && accounts[i] == Account(a, Some(w.deposits[a]));
      assert accounts2[if i == j then j2 else if i == j2 then j else i] == accounts[i];
    }
  }

  // Of two deposits that pay one record, either can be listed last.
  lemma OrderMatters<P>(c: Curve<P>, slices: seq<Slice<P>>, accounts: seq<Account>, records: seq<Record>, i: nat, j: nat,
                        j2: nat, accounts2: seq<Account>)
    requires IsSwap(accounts, j, j2, accounts2) && accounts[j].pubkey != accounts[j2].pubkey
    requires Pays(c, slices, accounts[j], records, i)
    requires j2 == LastPaid(c, slices, accounts, |accounts|, records, i, false)
    ensures LastPaid(c, slices, accounts2, |accounts|, records, i, false) == j2
  {
    var last := LastPaid(c, slices, accounts2, |accounts|, records, i, false);
    assert accounts2[j2] == accounts[j];
    assert forall j3 :: j2 < j3 < |accounts| ==> accounts2[j3] == accounts[j3];
  }

  // A synchronised record shows the last account that pays it.
  lemma SyncedShows<P>(c: Curve<P>, slices: seq<Slice<P>>, accounts: seq<Account>, records: seq<Record>,
                       after: seq<Record>, i: nat, j: nat)
    requires Synced(c, slices, accounts, records, after) && i < |records|
    requires j == LastPaid(c, slices, accounts, |accounts|, records, i, false)
    ensures after[i].onChainAddress == Some(accounts[j].pubkey)
  {
    hide LastPaid;
    assert UpToDate(c, slices, accounts, records, i, after[i]);
  }

  lemma SyncedTwiceDiffers<P>(c: Curve<P>, slices: seq<Slice<P>>, accounts: seq<Account>, accounts2: seq<Account>,
                              records: seq<Record>, once: seq<Record>, twice: seq<Record>, i: nat, j: nat)
    requires Synced(c, slices, accounts, records, once) && Synced(c, slices, accounts2, once, twice)
    requires i < |records| && |accounts2| == |accounts|
    requires j == LastPaid(c, slices, accounts, |accounts|, records, i, false)
    requires j == LastPaid(c, slices, accounts2, |accounts2|, records, i, false)
    requires accounts[j].pubkey != accounts2[j].pubkey
    ensures !TimesOnly(once[i], twice[i])
  {
    hide LastPaid, UpToDate;
    SyncedExtends(c, slices, accounts, records, once);
    SameLastPaid(c, slices, accounts2, |accounts2|, records, once, i, false);
    SyncedShows(c, slices, accounts, records, once, i, j);
    SyncedShows(c, slices, accounts2, once, twice, i, j);
  }

  // A pass and as many deliveries as it needs.
  lemma EnoughPosts<P>(c: Curve<P>, slices: seq<Slice<P>>, sys: System, accounts: seq<Account>)
    returns (posts: seq<Event>)
    requires sys.worlds != [] && sys.queue == [] && Lists(accounts, Now(sys)) && ScanPass(c, slices, accounts).Ok?
    ensures IsFullPass(c, slices, sys, accounts, posts)
  {
    hide Run, Next, ScanPass, Lists, PassAndPosts;
    posts := Posts(|ScanPass(c, slices, accounts).value|);
    PassRun(c, slices, sys, accounts, posts);
    Resynchronised(c, slices, sys, accounts, posts);
  }

  // Two full passes that end with a record showing different deposits.
  lemma TwoPassesDiffer<P>(c: Curve<P>, slices: seq<Slice<P>>, sys: System, before: seq<Event>, accounts: seq<Account>,
                           accounts2: seq<Account>, i: nat, j: nat)
    requires sys.worlds != [] && ChainFree(before) && Run(c, slices, sys, before).queue == []
    requires Lists(accounts, Now(sys)) && Lists(accounts2, Now(sys)) && ScanPass(c, slices, accounts).Ok?
    requires i < |Run(c, slices, sys, before).records| && |accounts2| == |accounts|
    requires j == LastPaid(c, slices, accounts, |accounts|, Run(c, slices, sys, before).records, i, false)
    requires j == LastPaid(c, slices, accounts2, |accounts2|, Run(c, slices, sys, before).records, i, false)
    requires accounts[j].pubkey != accounts2[j].pubkey
    ensures !OrderFree(c, slices, sys)
  {
    hide Run, Next, ScanPass, Lists, PassAndPosts, LastPaid, UpToDate;
    ChainFreeKeepsWorlds(c, slices, sys, before);
    ScansAlike(c, slices, Now(sys), accounts, accounts2);
    var start := Run(c, slices, sys, before);
    var posts := EnoughPosts(c, slices, start, accounts);
    FullPassSyncs(c, slices, start, accounts, posts);
    var once := Run(c, slices, start, PassAndPosts(accounts, posts));
    var posts2 := EnoughPosts(c, slices, once, accounts2);
    FullPassSyncs(c, slices, once, accounts2, posts2);
    var twice := Run(c, slices, once, PassAndPosts(accounts2, posts2));
    SyncedTwiceDiffers(c, slices, accounts, accounts2, start.records, once.records, twice.records, i, j);
    assert AreTwoPasses(c, slices, sys, before, accounts, posts, accounts2, posts2);
  }

  // A record opened for the key, and where the two deposits are listed.
  lemma OpenedRecord<P>(c: Curve<P>, slices: seq<Slice<P>>, sys: System, key: Key32) returns (i: nat)
    requires sys.worlds != [] && sys.queue == []
    ensures var start := Run(c, slices, sys, [CreateDeposit("", key, 0, 0)]);
            && start.queue == [] && i < |start.records| && FirstOf(start.records, key) == i
  {
    hide FirstOf;
    RunOfOne(c, slices, sys, CreateDeposit("", key, 0, 0));
    var start := Next(c, slices, sys, CreateDeposit("", key, 0, 0));
    assert start.records[|sys.records|].stealth == key;
    i := FirstOf(start.records, key);
  }

  lemma ListedLast<P>(c: Curve<P>, slices: seq<Slice<P>>, w: World, accounts: seq<Account>, records: seq<Record>, i: nat,
                      a: Address, b: Address)
    returns (j: nat, j2: nat)
    requires Lists(accounts, w) && Recognised(c, slices, w, a) && Recognised(c, slices, w, b) && a != b
    requires w.deposits[a].stealth == w.deposits[b].stealth
    requires i < |records| && FirstOf(records, w.deposits[a].stealth) == i
    ensures j < j2 < |accounts| && Pays(c, slices, accounts[j], records, i)
    ensures j2 == LastPaid(c, slices, accounts, |accounts|, records, i, false)
    ensures accounts[j].pubkey != accounts[j2].pubkey
  {
    hide LastPaid;
    var ja :| 0 <= ja < |accounts| && accounts[ja] == Account(a, Some(w.deposits[a]));
    var jb :| 0 <= jb < |accounts| && accounts[jb] == Account(b, Some(w.deposits[b]));
    assert Pays(c, slices, accounts[ja], records, i) && Pays(c, slices, accounts[jb], records, i);
    j := if ja < jb then ja else jb;
    j2 := LastPaid(c, slices, accounts, |accounts|, records, i, false);
  }

  lemma TwoDepositsDiffer<P>(c: Curve<P>, slices: seq<Slice<P>>, sys: System, accounts: seq<Account>, a: Address,
                             b: Address)
    requires sys.worlds != [] && sys.queue == [] && Lists(accounts, Now(sys)) && ScanPass(c, slices, accounts).Ok?
    requires Recognised(c, slices, Now(sys), a) && Recognised(c, slices, Now(sys), b) && a != b
    requires Now(sys).deposits[a].stealth == Now(sys).deposits[b].stealth
    ensures !OrderFree(c, slices, sys)
  {
    hide Run, Next, ScanPass, LastPaid, Pays, FirstOf;
    var key := Now(sys).deposits[a].stealth;
    var before := [CreateDeposit("", key, 0, 0)];
    var i := OpenedRecord(c, slices, sys, key);
    var records := Run(c, slices, sys, before).records;
    var j, j2 := ListedLast(c, slices, Now(sys), accounts, records, i, a, b);
    var accounts2 := accounts[j := accounts[j2]][j2 := accounts[j]];
    SwapLists(accounts, Now(sys), j, j2, accounts2);
    OrderMatters(c, slices, accounts, records, i, j, j2, accounts2);
    TwoPassesDiffer(c, slices, sys, before, accounts, accounts2, i, j2);
  }

  // From any moment with nothing left to post and a listing that can be scanned:
  // of two full passes over the same chain the second changes times only,
  // whatever the orders of their listings, exactly when there is one recognised
  // deposit per key.
  lemma OrderFreeIffOneDeposit<P>(c: Curve<P>, slices: seq<Slice<P>>, sys: System, listing: seq<Account>)
    requires sys.worlds != [] && sys.queue == []
    requires Lists(listing, Now(sys)) && ScanPass(c, slices, listing).Ok?
    ensures OneDepositPerKey(c, slices, Now(sys)) <==> OrderFree(c, slices, sys)
  {
    hide Run, Next, ScanPass, Lists, AreTwoPasses, SecondChangesTimesOnly;
    if OneDepositPerKey(c, slices, Now(sys)) {
      forall before, accounts, posts, accounts2, posts2
        | AreTwoPasses(c, slices, sys, before, accounts, posts, accounts2, posts2)
        ensures SecondChangesTimesOnly(c, slices, sys, before, accounts, posts, accounts2, posts2)
      {
        OneDepositOrderFree(c, slices, sys, listing, before, accounts, posts, accounts2, posts2);
      }
    } else {
      var a, b :| && Recognised(c, slices, Now(sys), a) && Recognised(c, slices, Now(sys), b)
                  && Now(sys).deposits[a].stealth == Now(sys).deposits[b].stealth && a != b;
      TwoDepositsDiffer(c, slices, sys, listing, a, b);
    }
  }
}
