/**
 Which assets the CLOB source wants, serves and has subscribed to (market_data/sources/polymarket_clob.py:
 315-407, 453-572), as steps between awaits.
 */
module Subscriptions {
  import opened Wrappers
  import opened Models

  datatype Metadata = Metadata(timeframe: Timeframe, marketId: string, conditionId: string, outcome: Outcome)

  /** The part of a market the source looks at. */
  datatype Tokens = Tokens(marketId: string, conditionId: string, up: string, down: string)

  type Assets = map<string, Metadata>

  /** A message sent to the server on the current connection. */
  datatype Message = Initial(ids: set<string>) | Subscribe(ids: set<string>) | Unsubscribe(ids: set<string>)

  function Received(held: set<string>, m: Message): set<string> {
    match m
    case Initial(ids) => ids
    case Subscribe(ids) => held + ids
    case Unsubscribe(ids) => held - ids
  }

  /** What the server holds for the connection after these messages. */
  function ServerSet(sent: seq<Message>): set<string> {
    if sent == [] then {} else Received(ServerSet(sent[..|sent| - 1]), sent[|sent| - 1])
  }

  /**
   Where the connection and its subscription task stand. `target` is what was desired when the pass
   under way looked.
   */
  datatype Pc =
    | Offline
    | Dialing(initial: set<string>)
    | Idle
    | Adding(added: set<string>, removed: set<string>, target: set<string>)
    | Removing(removed: set<string>, target: set<string>)

  /** `latest` holds, for each timeframe, what its latest snapshot asked for. */
  datatype Source = Source(
    now: int, assets: Assets, desired: set<string>, subscribed: set<string>, retireAt: map<string, int>,
    pc: Pc, sent: seq<Message>, latest: map<Timeframe, Assets>)

  function NewSource(now: int): Source {
    Source(now, map[], {}, {}, map[], Offline, [], map[])
  }

  // One market snapshot.

  function AddMarket(assets: Assets, tf: Timeframe, market: Option<Tokens>): Assets {
    if market.None? then assets
    else
      assets[market.value.up := Metadata(tf, market.value.marketId, market.value.conditionId, UP)]
            [market.value.down := Metadata(tf, market.value.marketId, market.value.conditionId, DOWN)]
  }

  /** The assets a snapshot asks for. */
  function Required(tf: Timeframe, current: Option<Tokens>, next: Option<Tokens>): Assets {
    AddMarket(AddMarket(map[], tf, current), tf, next)
  }

  function Owned(assets: Assets, tf: Timeframe): set<string> {
    set id | id in assets && assets[id].timeframe == tf
  }

  /** Assets that lost their place start to retire; those already retiring keep their deadline. */
  function Retire(retireAt: map<string, int>, gone: set<string>, deadline: int): map<string, int> {
    map id | id in retireAt.Keys + gone :: if id in retireAt then retireAt[id] else deadline
  }

  function OnSnapshot(s: Source, grace: int, tf: Timeframe, current: Option<Tokens>, next: Option<Tokens>): Source {
    var required := Required(tf, current, next);
    var assets := AddMarket(AddMarket(s.assets, tf, current), tf, next);
    s.(assets := assets,
       retireAt := Retire(s.retireAt, Owned(assets, tf) - required.Keys, s.now + grace) - required.Keys,
       desired := s.desired + required.Keys,
       latest := s.latest[tf := required])
  }

  // One pass of the subscription task.

  function Due(retireAt: map<string, int>, now: int): set<string> {
    set id | id in retireAt && retireAt[id] <= now
  }

  function ExpireAssets(s: Source): Source {
    var due := Due(s.retireAt, s.now);
    s.(desired := s.desired - due, assets := s.assets - due, retireAt := s.retireAt - due)
  }

  function ToRemove(s: Source, removed: set<string>, target: set<string>): Source {
    s.(pc := if removed == {} then Idle else Removing(removed, target))
  }

  /** Up to the first send: expire, compare, and stop at the send of what is missing, if anything is. */
  function Compare(s: Source): Source {
    var e := ExpireAssets(s);
    var added, removed := e.desired - e.subscribed, e.subscribed - e.desired;
    if added != {} then e.(pc := Adding(added, removed, e.desired)) else ToRemove(e, removed, e.desired)
  }

  function AddSent(s: Source): Source
    requires s.pc.Adding?
  {
    ToRemove(s.(sent := s.sent + [Subscribe(s.pc.added)], subscribed := s.subscribed + s.pc.added),
             s.pc.removed, s.pc.target)
  }

  function RemoveSent(s: Source): Source
    requires s.pc.Removing?
  {
    s.(sent := s.sent + [Unsubscribe(s.pc.removed)], subscribed := s.subscribed - s.pc.removed, pc := Idle)
  }

  datatype Step =
    | Advance(to: int)
    | Snapshot(timeframe: Timeframe, current: Option<Tokens>, next: Option<Tokens>)
    | Dial | Connected
    | Pass | Added | Removed
    | Fails | Closes

  /** Snapshots and time come at any moment; everything else in the order of the connection's life. */
  predicate Enabled(s: Source, step: Step) {
    match step
    case Advance(to) => s.now <= to
    case Snapshot(_, _, _) => true
    case Dial => s.pc.Offline?
    case Connected => s.pc.Dialing?
    case Pass => s.pc.Idle?
    case Added => s.pc.Adding?
    case Removed => s.pc.Removing?
    case Fails => !s.pc.Offline?
    case Closes => !s.pc.Offline?
  }

  /** A connection that fails clears what was subscribed; one that closes in order does not. */
  function Do(s: Source, grace: int, step: Step): Source
    requires Enabled(s, step)
  {
    match step
    case Advance(to) => s.(now := to)
    case Snapshot(tf, current, next) => OnSnapshot(s, grace, tf, current, next)
    case Dial => s.(pc := Dialing(s.desired), sent := [])
    case Connected => s.(sent := [Initial(s.pc.initial)], subscribed := s.pc.initial, pc := Idle)
    case Pass => Compare(s)
    case Added => AddSent(s)
    case Removed => RemoveSent(s)
    case Fails => s.(subscribed := {}, sent := [], pc := Offline)
    case Closes => s.(sent := [], pc := Offline)
  }

  predicate Goes(s: Source, grace: int, step: Step, t: Source) {
    Enabled(s, step) && t == Do(s, grace, step)
  }

  ghost predicate IsRun(grace: int, states: seq<Source>, steps: seq<Step>) {
    && |states| == |steps| + 1 && states[0] == NewSource(states[0].now)
    && (forall i {:trigger steps[i]} :: 0 <= i < |steps| ==> Goes(states[i], grace, steps[i], states[i + 1]))
  }

  class PolymarketClobSource {
    const grace: int
    var now: int
    var assets: Assets
    var desired: set<string>
    var subscribed: set<string>
    var retireAt: map<string, int>
    var pc: Pc
    ghost var sent: seq<Message>
    ghost var latest: map<Timeframe, Assets>

    ghost function View(): Source
      reads this
    {
      Source(now, assets, desired, subscribed, retireAt, pc, sent, latest)
    }

    constructor (grace: int, now: int)
      ensures this.grace == grace && View() == NewSource(now)
    {
      this.grace, this.now := grace, now;
      assets, desired, subscribed, retireAt, pc, sent, latest := map[], {}, {}, map[], Offline, [], map[];
    }

    method NoteMarket(tf: Timeframe, market: Option<Tokens>, required: Assets) returns (all: Assets)
      modifies this`assets
      ensures assets == AddMarket(old(assets), tf, market) && all == AddMarket(required, tf, market)
    {
      all := required;
      if market.Some? {
        var up := Metadata(tf, market.value.marketId, market.value.conditionId, UP);
        var down := Metadata(tf, market.value.marketId, market.value.conditionId, DOWN);
        all := all[market.value.up := up][market.value.down := down];
        assets := assets[market.value.up := up][market.value.down := down];
      }
    }

    method StartRetiring(gone: set<string>, deadline: int)
      modifies this`retireAt
      ensures retireAt == Retire(old(retireAt), gone, deadline)
    {
      var todo := gone;
      while todo != {}
        invariant todo <= gone
        invariant retireAt == Retire(old(retireAt), gone - todo, deadline)
        decreases |todo|
      {
        var id :| id in todo;
        if id !in retireAt {
          retireAt := retireAt[id := deadline];
        }
        todo := todo - {id};
      }
      assert gone - todo == gone;
    }

    method OnMarketSnapshot(tf: Timeframe, current: Option<Tokens>, next: Option<Tokens>)
      modifies this
      ensures View() == OnSnapshot(old(View()), grace, tf, current, next)
    {
      var required := NoteMarket(tf, current, map[]);
      required := NoteMarket(tf, next, required);
      StartRetiring(Owned(assets, tf) - required.Keys, now + grace);
      retireAt := retireAt - required.Keys;
      desired := desired + required.Keys;
      latest := latest[tf := required];
    }

    method Expire()
      modifies this`desired, this`assets, this`retireAt
      ensures View() == ExpireAssets(old(View()))
    {
      var todo := Due(retireAt, now);
      ghost var due := todo;
      while todo != {}
        invariant todo <= due
        invariant desired == old(desired) - (due - todo) && assets == old(assets) - (due - todo)
        invariant retireAt == old(retireAt) - (due - todo)
        decreases |todo|
      {
        var id :| id in todo;
        desired, assets, retireAt := desired - {id}, assets - {id}, retireAt - {id};
        todo := todo - {id};
      }
      assert due - todo == due;
    }

    /** One pass up to its first send. */
    method BeginPass()
      modifies this
      ensures View() == Compare(old(View()))
    {
      Expire();
      var added, removed := desired - subscribed, subscribed - desired;
      if added != {} {
        pc := Adding(added, removed, desired);
      } else {
        SkipOrRemove(removed, desired);
      }
    }

    method SkipOrRemove(removed: set<string>, target: set<string>)
      modifies this`pc
      ensures View() == ToRemove(old(View()), removed, target)
    {
      pc := if removed == {} then Idle else Removing(removed, target);
    }

    /** The subscribing message is sent. */
    method NoteAdded()
      requires pc.Adding?
      modifies this
      ensures View() == AddSent(old(View()))
    {
      sent := sent + [Subscribe(pc.added)];
      subscribed := subscribed + pc.added;
      SkipOrRemove(pc.removed, pc.target);
    }

    /** The unsubscribing message is sent. */
    method NoteRemoved()
      requires pc.Removing?
      modifies this
      ensures View() == RemoveSent(old(View()))
    {
      sent := sent + [Unsubscribe(pc.removed)];
      subscribed, pc := subscribed - pc.removed, Idle;
    }

    /** The connection is made, and the initial subscription sent. */
    method NoteConnected()
      requires pc.Dialing?
      modifies this
      ensures View() == Do(old(View()), grace, Connected)
    {
      sent := [Initial(pc.initial)];
      subscribed, pc := pc.initial, Idle;
    }

    /** Whatever happens to the source between two awaits is one step of the system. */
    method Perform(step: Step)
      requires Enabled(View(), step)
      modifies this
      ensures View() == Do(old(View()), grace, step)
    {
      match step {
        case Advance(to) => now := to;
        case Snapshot(tf, current, next) => OnMarketSnapshot(tf, current, next);
        case Dial => pc, sent := Dialing(desired), [];
        case Connected => NoteConnected();
        case Pass => BeginPass();
        case Added => NoteAdded();
        case Removed => NoteRemoved();
        case Fails => subscribed, sent, pc := {}, [], Offline;
        case Closes => sent, pc := [], Offline;
      }
    }
  }

  // What every reachable state keeps.

  /** The asset is in the latest snapshot of the timeframe that owns it. */
  predicate Listed(s: Source, id: string)
    requires id in s.assets
  {
    s.assets[id].timeframe in s.latest && id in s.latest[s.assets[id].timeframe]
  }

  /** An asset retires exactly while it is not listed; while it is, it is known as that snapshot described it. */
  predicate Retires(s: Source, id: string)
    requires id in s.assets
  {
    && (id in s.retireAt <==> !Listed(s, id))
    && (Listed(s, id) ==> s.latest[s.assets[id].timeframe][id] == s.assets[id])
  }

  ghost predicate Books(s: Source) {
    && s.assets.Keys == s.desired
    && s.retireAt.Keys <= s.assets.Keys
    && (forall id :: id in s.assets ==> Retires(s, id))
    && (forall tf, id :: tf in s.latest && id in s.latest[tf] ==> s.latest[tf][id].timeframe == tf)
  }

  /** While connected, the server holds what is subscribed, and a pass under way aims at its target. */
  predicate Served(s: Source) {
    match s.pc
    case Offline => true
    case Dialing(_) => true
    case Idle => ServerSet(s.sent) == s.subscribed
    case Adding(added, removed, target) =>
      ServerSet(s.sent) == s.subscribed && (s.subscribed + added) - removed == target
    case Removing(removed, target) =>
      ServerSet(s.sent) == s.subscribed && s.subscribed - removed == target
  }

  lemma {:induction false} SendSnoc(sent: seq<Message>, m: Message)
    ensures ServerSet(sent + [m]) == Received(ServerSet(sent), m)
  {
    assert (sent + [m])[..|sent|] == sent;
  }

  lemma Difference(held: set<string>, wanted: set<string>)
    ensures (held + (wanted - held)) - (held - wanted) == wanted
    ensures wanted - held == {} ==> held - (held - wanted) == wanted
    ensures wanted - held == {} && held - wanted == {} ==> held == wanted
  {
    forall id ensures id in (held + (wanted - held)) - (held - wanted) <==> id in wanted {
    }
    if wanted - held == {} {
      forall id | id in wanted ensures id in held {
        assert id !in wanted - held;
      }
      assert held - (held - wanted) == wanted;
      if held - wanted == {} {
        forall id | id in held ensures id in wanted {
          assert id !in held - wanted;
        }
      }
    }
  }

  /** A pass aims at what is desired once expired assets are gone; with nothing to send it is there. */
  lemma CompareAims(s: Source)
    requires Served(s) && s.pc.Idle?
    ensures var t := Compare(s);
            && Served(t) && t.desired == ExpireAssets(s).desired
            && !t.pc.Offline? && !t.pc.Dialing?
            && (t.pc.Idle? ==> t.subscribed == t.desired)
            && (t.pc.Adding? || t.pc.Removing? ==> t.pc.target == t.desired)
  {
    Difference(s.subscribed, ExpireAssets(s).desired);
  }

  lemma AddAims(s: Source)
    requires Served(s) && s.pc.Adding?
    ensures var t := AddSent(s);
            && Served(t) && t.desired == s.desired
            && (t.pc.Idle? || t.pc.Removing?)
            && (if t.pc.Idle? then t.subscribed else t.pc.target) == s.pc.target
  {
    SendSnoc(s.sent, Subscribe(s.pc.added));
    var held := s.subscribed + s.pc.added;
    assert held - {} == held;
  }

  lemma RemoveAims(s: Source)
    requires Served(s) && s.pc.Removing?
    ensures var t := RemoveSent(s);
            Served(t) && t.desired == s.desired && t.pc.Idle? && t.subscribed == s.pc.target
  {
    SendSnoc(s.sent, Unsubscribe(s.pc.removed));
  }

  lemma DoServes(s: Source, grace: int, step: Step)
    requires Served(s) && Enabled(s, step)
    ensures Served(Do(s, grace, step))
  {
    match step {
      case Connected =>
        SendSnoc([], Initial(s.pc.initial));
        assert [] + [Initial(s.pc.initial)] == [Initial(s.pc.initial)];
      case Pass => CompareAims(s);
      case Added => AddAims(s);
      case Removed => RemoveAims(s);
      case _ =>
    }
  }

  /** A market adds its own two assets at most, as it describes them. */
  lemma AddMarketAdds(assets: Assets, tf: Timeframe, market: Option<Tokens>, id: string)
    ensures var own := AddMarket(map[], tf, market);
            && (id in AddMarket(assets, tf, market) <==> id in assets || id in own)
            && (id in own ==> AddMarket(assets, tf, market)[id] == own[id] && own[id].timeframe == tf)
            && (id in assets && id !in own ==> AddMarket(assets, tf, market)[id] == assets[id])
  {
  }

  lemma SnapshotAssets(s: Source, tf: Timeframe, current: Option<Tokens>, next: Option<Tokens>, id: string)
    ensures var required, assets := Required(tf, current, next), AddMarket(AddMarket(s.assets, tf, current), tf, next);
            && (id in assets <==> id in s.assets || id in required)
            && (id in required ==> assets[id] == required[id] && assets[id].timeframe == tf)
            && (id in s.assets && id !in required ==> assets[id] == s.assets[id])
  {
    AddMarketAdds(AddMarket(s.assets, tf, current), tf, next, id);
    AddMarketAdds(s.assets, tf, current, id);
    AddMarketAdds(AddMarket(map[], tf, current), tf, next, id);
  }

  lemma SnapshotRetires(s: Source, grace: int, tf: Timeframe, current: Option<Tokens>, next: Option<Tokens>, id: string)
    requires Books(s) && id in OnSnapshot(s, grace, tf, current, next).assets
    ensures Retires(OnSnapshot(s, grace, tf, current, next), id)
  {
    SnapshotAssets(s, tf, current, next, id);
  }

  lemma SnapshotKeeps(s: Source, grace: int, tf: Timeframe, current: Option<Tokens>, next: Option<Tokens>)
    requires Books(s)
    ensures Books(OnSnapshot(s, grace, tf, current, next))
  {
    var t := OnSnapshot(s, grace, tf, current, next);
    forall id ensures (id in t.assets <==> id in t.desired) && (id in t.retireAt ==> id in t.assets) {
      SnapshotAssets(s, tf, current, next, id);
    }
    forall id | id in t.assets ensures Retires(t, id) {
      SnapshotRetires(s, grace, tf, current, next, id);
    }
    forall tf', id | tf' in t.latest && id in t.latest[tf'] ensures t.latest[tf'][id].timeframe == tf' {
      SnapshotAssets(s, tf, current, next, id);
    }
  }

  lemma ExpireKeeps(s: Source)
    requires Books(s)
    ensures Books(ExpireAssets(s))
  {
    var t := ExpireAssets(s);
    forall id | id in t.assets ensures Retires(t, id) {
      assert Retires(s, id);
    }
  }

  lemma SameBooks(s: Source, t: Source)
    requires Books(s)
    requires t.assets == s.assets && t.desired == s.desired && t.retireAt == s.retireAt && t.latest == s.latest
    ensures Books(t)
  {
    forall id | id in t.assets ensures Retires(t, id) {
      assert Retires(s, id);
    }
  }

  lemma DoKeepsBooks(s: Source, grace: int, step: Step)
    requires Books(s) && Enabled(s, step)
    ensures Books(Do(s, grace, step))
  {
    match step {
      case Snapshot(tf, current, next) => SnapshotKeeps(s, grace, tf, current, next);
      case Pass =>
        ExpireKeeps(s);
        SameBooks(ExpireAssets(s), Compare(s));
      case _ => SameBooks(s, Do(s, grace, step));
    }
  }

  lemma {:induction false} RunInv(grace: int, states: seq<Source>, steps: seq<Step>, i: nat)
    requires IsRun(grace, states, steps) && i < |states|
    ensures Books(states[i]) && Served(states[i])
  {
    if i > 0 {
      RunInv(grace, states, steps, i - 1);
      DoKeepsBooks(states[i - 1], grace, steps[i - 1]);
      DoServes(states[i - 1], grace, steps[i - 1]);
    }
  }

  /**
   In every reachable state the asset table covers exactly the desired assets, an asset retires exactly
   while the latest snapshot of the timeframe that owns it does not list it, and between two passes of
   a live connection the server holds, by the messages sent to it, exactly what is noted as subscribed.
   */
  lemma SubscriptionsConsistent(grace: int, states: seq<Source>, steps: seq<Step>, i: nat)
    requires IsRun(grace, states, steps) && i < |states|
    ensures var s := states[i];
            && s.assets.Keys == s.desired && s.retireAt.Keys <= s.desired
            && (forall id :: id in s.assets ==> (id in s.retireAt <==> !Listed(s, id)))
            && (s.pc.Idle? ==> ServerSet(s.sent) == s.subscribed)
  {
    RunInv(grace, states, steps, i);
    forall id | id in states[i].assets ensures id in states[i].retireAt <==> !Listed(states[i], id) {
      assert Retires(states[i], id);
    }
  }

  // What a snapshot asks for, token by token.

  predicate HasToken(market: Option<Tokens>, id: string) {
    market.Some? && (id == market.value.up || id == market.value.down)
  }

  /** The asset as the market describes it: a down token is DOWN, also where the market gives it for both sides. */
  predicate DescribedBy(metadata: Metadata, tf: Timeframe, market: Tokens, id: string) {
    && metadata.timeframe == tf && metadata.marketId == market.marketId && metadata.conditionId == market.conditionId
    && metadata.outcome == if id == market.down then DOWN else UP
  }

  /**
   A snapshot asks for exactly the up and down tokens of its current and next market, each described by the market
   that names it, the next one where both do. All of them are desired and in the table from then on, and none of
   them retires; no other asset's entry changes.
   */
  lemma SnapshotMeans(s: Source, grace: int, tf: Timeframe, current: Option<Tokens>, next: Option<Tokens>, id: string)
    ensures var required, t := Required(tf, current, next), OnSnapshot(s, grace, tf, current, next);
            && (id in required <==> HasToken(current, id) || HasToken(next, id))
            && (id in required ==>
                  id in t.desired && id in t.assets && id !in t.retireAt && t.assets[id] == required[id])
            && (id in required ==>
                  DescribedBy(required[id], tf, if HasToken(next, id) then next.value else current.value, id))
            && (id !in required ==>
                  && (id in t.desired <==> id in s.desired) && (id in t.assets <==> id in s.assets)
                  && (id in s.assets ==> t.assets[id] == s.assets[id]))
  {
    AddMarketMeans(AddMarket(map[], tf, current), tf, next, id);
    AddMarketMeans(map[], tf, current, id);
    AddMarketMeans(AddMarket(s.assets, tf, current), tf, next, id);
    AddMarketMeans(s.assets, tf, current, id);
  }

  lemma AddMarketMeans(assets: Assets, tf: Timeframe, market: Option<Tokens>, id: string)
    ensures var after := AddMarket(assets, tf, market);
            if HasToken(market, id) then id in after && DescribedBy(after[id], tf, market.value, id)
            else (id in after <==> id in assets) && (id in assets ==> after[id] == assets[id])
    ensures HasToken(market, id) ==>
              AddMarket(assets, tf, market)[id] ==
              Metadata(tf, market.value.marketId, market.value.conditionId,
                       if id == market.value.down then DOWN else UP)
  {
  }

  /** A connection starts by subscribing to everything desired when it was dialled, and to nothing else. */
  lemma ConnectionStarts(s: Source, grace: int)
    requires s.pc.Offline?
    ensures var dialled := Do(s, grace, Dial);
            && dialled.pc == Dialing(s.desired) && dialled.desired == s.desired && dialled.sent == []
            && var up := Do(dialled, grace, Connected);
               up.pc.Idle? && ServerSet(up.sent) == s.desired == up.subscribed
  {
    SendSnoc([], Initial(s.desired));
    assert [] + [Initial(s.desired)] == [Initial(s.desired)];
  }

  // The grace of a retiring asset.

  /** A deadline does not move while it stands. */
  lemma DeadlineStands(s: Source, grace: int, step: Step, id: string)
    requires Enabled(s, step) && id in s.retireAt && id in Do(s, grace, step).retireAt
    ensures Do(s, grace, step).retireAt[id] == s.retireAt[id]
  {
  }

  /** A deadline is set by a snapshot of the owning timeframe that leaves the asset out, one grace ahead. */
  lemma DeadlineIsSet(s: Source, grace: int, step: Step, id: string)
    requires Books(s) && Enabled(s, step) && id !in s.retireAt && id in Do(s, grace, step).retireAt
    ensures step.Snapshot? && id in s.assets && s.assets[id].timeframe == step.timeframe
    ensures id !in Required(step.timeframe, step.current, step.next)
    ensures Do(s, grace, step).retireAt[id] == s.now + grace
  {
    match step {
      case Snapshot(tf, current, next) => SnapshotAssets(s, tf, current, next, id);
      case _ =>
    }
  }

  ghost predicate RetiringThrough(states: seq<Source>, id: string, from: nat, to: nat)
    requires to < |states|
  {
    forall k :: from <= k <= to ==> id in states[k].retireAt
  }

  /** The snapshot since which the asset has been retiring without a break. */
  lemma {:induction false} RetiringSince(grace: int, states: seq<Source>, steps: seq<Step>, i: nat, id: string)
    returns (j: nat)
    requires IsRun(grace, states, steps) && i < |states| && id in states[i].retireAt
    ensures j < i && steps[j].Snapshot? && id !in Required(steps[j].timeframe, steps[j].current, steps[j].next)
    ensures id in states[j].assets && states[j].assets[id].timeframe == steps[j].timeframe
    ensures states[i].retireAt[id] == states[j].now + grace
    ensures RetiringThrough(states, id, j + 1, i)
  {
    var s, step := states[i - 1], steps[i - 1];
    RunInv(grace, states, steps, i - 1);
    if id in s.retireAt {
      j := RetiringSince(grace, states, steps, i - 1, id);
      DeadlineStands(s, grace, step, id);
    } else {
      j := i - 1;
      DeadlineIsSet(s, grace, step, id);
    }
  }

  /** An asset is dropped exactly by a pass that finds its deadline come. */
  lemma DroppedIff(s: Source, grace: int, step: Step, id: string)
    requires Books(s) && Enabled(s, step) && id in s.desired
    ensures id !in Do(s, grace, step).desired <==> step.Pass? && id in s.retireAt && s.retireAt[id] <= s.now
  {
  }

  /**
   An asset is dropped only by a pass, and only when the full grace has passed since a snapshot of the
   timeframe that owned it left it out, with no snapshot taking it back in between.
   */
  lemma FullGrace(grace: int, states: seq<Source>, steps: seq<Step>, i: nat, id: string) returns (j: nat)
    requires IsRun(grace, states, steps) && i < |steps| && id in states[i].desired && id !in states[i + 1].desired
    ensures steps[i].Pass? && j < i && steps[j].Snapshot?
    ensures id !in Required(steps[j].timeframe, steps[j].current, steps[j].next)
    ensures states[j].now + grace <= states[i].now && RetiringThrough(states, id, j + 1, i)
  {
    RunInv(grace, states, steps, i);
    assert Goes(states[i], grace, steps[i], states[i + 1]);
    DroppedIff(states[i], grace, steps[i], id);
    j := RetiringSince(grace, states, steps, i, id);
  }

  // What a pass achieves.

  /** When a pass ends, the server holds exactly what was desired when the pass looked, whatever came in between. */
  lemma PassReachesTarget(s: Source, grace: int, step: Step)
    requires Served(s) && (s.pc.Adding? || s.pc.Removing?) && Enabled(s, step)
    requires Do(s, grace, step).pc.Idle?
    ensures ServerSet(Do(s, grace, step).sent) == s.pc.target == Do(s, grace, step).subscribed
  {
    if step.Added? {
      AddAims(s);
    } else {
      RemoveAims(s);
    }
  }

  function FinishAdding(s: Source): Source {
    if s.pc.Adding? then AddSent(s) else s
  }

  function FinishRemoving(s: Source): Source {
    if s.pc.Removing? then RemoveSent(s) else s
  }

  /** So a pass with nothing in between leaves the server with exactly the desired assets. */
  lemma UndisturbedPass(s: Source)
    requires Served(s) && s.pc.Idle?
    ensures var t := FinishRemoving(FinishAdding(Compare(s)));
            t.pc.Idle? && ServerSet(t.sent) == t.subscribed == t.desired == ExpireAssets(s).desired
  {
    CompareAims(s);
    var a := Compare(s);
    if a.pc.Adding? {
      AddAims(a);
    }
    var b := FinishAdding(a);
    if b.pc.Removing? {
      RemoveAims(b);
    }
  }

  // Assets a snapshot asks for stay.

  /** No snapshot names an asset that the other timeframe's latest snapshot asks for. */
  ghost predicate NoTakeover(s: Source, step: Step) {
    step.Snapshot? ==>
      forall tf, id :: tf in s.latest && tf != step.timeframe && id in s.latest[tf] ==>
        id !in Required(step.timeframe, step.current, step.next)
  }

  predicate Owns(s: Source, tf: Timeframe, id: string) {
    id in s.assets && s.assets[id].timeframe == tf
  }

  ghost predicate AllOwned(s: Source) {
    forall tf, id :: tf in s.latest && id in s.latest[tf] ==> Owns(s, tf, id)
  }

  lemma DoKeepsOwned(s: Source, grace: int, step: Step)
    requires Books(s) && AllOwned(s) && Enabled(s, step) && NoTakeover(s, step)
    ensures AllOwned(Do(s, grace, step))
  {
    var t := Do(s, grace, step);
    forall tf, id | tf in t.latest && id in t.latest[tf] ensures Owns(t, tf, id) {
      if step.Snapshot? {
        SnapshotAssets(s, step.timeframe, step.current, step.next, id);
      } else {
        assert Owns(s, tf, id) && Retires(s, id);
      }
    }
  }

  /**
   As long as the two timeframes never name the same asset, every asset in the latest snapshot of either
   is desired and not retiring, so no pass ever drops it.
   */
  lemma {:induction false} RequiredStays(grace: int, states: seq<Source>, steps: seq<Step>, i: nat)
    requires IsRun(grace, states, steps) && i < |states|
    requires forall k :: 0 <= k < i ==> NoTakeover(states[k], steps[k])
    ensures AllOwned(states[i])
    ensures forall tf, id :: tf in states[i].latest && id in states[i].latest[tf] ==>
              id in states[i].desired && id !in states[i].retireAt
  {
    RunInv(grace, states, steps, i);
    if i > 0 {
      RequiredStays(grace, states, steps, i - 1);
      RunInv(grace, states, steps, i - 1);
      DoKeepsOwned(states[i - 1], grace, steps[i - 1]);
    }
    forall tf, id | tf in states[i].latest && id in states[i].latest[tf]
      ensures id in states[i].desired && id !in states[i].retireAt
    {
      assert Owns(states[i], tf, id) && Retires(states[i], id);
    }
  }
}
