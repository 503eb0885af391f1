/** Durable mailboxes: per-registration sequence numbers, paged reads, acknowledgements,
    and the emit loop that fills them. */
module EventStore {
  import opened Prelude
  import opened Matcher

  /** An event as stored; its sequence number is the mailbox key. */
  datatype Event = Event(id: Id, source: string, kind: string, attrs: Attrs)

  datatype Mailbox = Mailbox(lastSeq: nat, entries: map<nat, Event>)

  function Enqueued(m: Mailbox, e: Event): Mailbox {
    Mailbox(m.lastSeq + 1, m.entries[m.lastSeq + 1 := e])
  }

  function Acked(m: Mailbox, n: nat): Mailbox {
    m.(entries := m.entries - {n})
  }

  /** Keys never exceed the counter, so a new number is always new. */
  ghost predicate MailboxOk(m: Mailbox) {
    forall n :: n in m.entries ==> 1 <= n <= m.lastSeq
  }

  // ── Pages ───────────────────────────────────────────────────────────────────

  datatype Numbered = Numbered(n: nat, event: Event)

  /** A page read after `cursor`: entries of the mailbox in ascending order, none skipped,
      and cut short only by the limit. */
  ghost predicate IsPage(page: seq<Numbered>, entries: map<nat, Event>, cursor: nat, limit: nat) {
    && |page| <= limit
    && (forall i :: 0 <= i < |page| ==>
          page[i].n > cursor && page[i].n in entries && entries[page[i].n] == page[i].event)
    && (forall i, j :: 0 <= i < j < |page| ==> page[i].n < page[j].n)
    && (forall n :: n in entries && n > cursor ==> InPage(page, n) || (|page| == limit && Beyond(page, n)))
  }

  ghost predicate InPage(page: seq<Numbered>, n: nat) {
    exists i :: 0 <= i < |page| && page[i].n == n
  }

  /** n comes after everything on the page. */
  ghost predicate Beyond(page: seq<Numbered>, n: nat) {
    forall i :: 0 <= i < |page| ==> page[i].n < n
  }

  /** The smallest key above a cursor. */
  method NextAbove(entries: map<nat, Event>, cursor: nat) returns (n: Option<nat>)
    ensures n.Some? ==> n.value in entries && n.value > cursor
                        && forall k :: k in entries && k > cursor ==> n.value <= k
    ensures n.None? ==> forall k :: k in entries ==> k <= cursor
  {
    n := None;
    var todo := entries.Keys;
    while todo != {}
      invariant todo <= entries.Keys
      invariant n.Some? ==> n.value in entries && n.value > cursor
      invariant forall k :: k in entries && k !in todo && k > cursor ==> n.Some? && n.value <= k
      decreases |todo|
    {
      var k :| k in todo;
      if k > cursor && (n.None? || k < n.value) {
        n := Some(k);
      }
      todo := todo - {k};
    }
  }

  /** The page holds exactly the entries between the cursor and `last`, in order. */
  ghost predicate PageUpTo(page: seq<Numbered>, entries: map<nat, Event>, cursor: nat, last: nat) {
    && cursor <= last
    && (forall i :: 0 <= i < |page| ==>
          cursor < page[i].n <= last && page[i].n in entries && entries[page[i].n] == page[i].event)
    && (forall i, j :: 0 <= i < j < |page| ==> page[i].n < page[j].n)
    && (forall n :: n in entries && cursor < n <= last ==> InPage(page, n))
  }

  lemma PageGrows(page: seq<Numbered>, entries: map<nat, Event>, cursor: nat, last: nat, next: nat)
    requires PageUpTo(page, entries, cursor, last) && next in entries && next > last
    requires forall k :: k in entries && k > last ==> next <= k
    ensures PageUpTo(page + [Numbered(next, entries[next])], entries, cursor, next)
  {
    var grown := page + [Numbered(next, entries[next])];
    forall n | n in entries && cursor < n <= next ensures InPage(grown, n) {
      if n <= last {
        var i :| 0 <= i < |page| && page[i].n == n;
        assert grown[i].n == n;
      } else {
        assert grown[|page|].n == n;
      }
    }
  }

  method Peek(m: Mailbox, cursor: nat, limit: nat) returns (page: seq<Numbered>)
    ensures IsPage(page, m.entries, cursor, limit)
  {
    page := [];
    var last := cursor;
    while |page| < limit
      invariant |page| <= limit && PageUpTo(page, m.entries, cursor, last)
    {
      var next := NextAbove(m.entries, last);
      if next.None? {
        break;
      }
      PageGrows(page, m.entries, cursor, last, next.value);
      page := page + [Numbered(next.value, m.entries[next.value])];
      last := next.value;
    }
  }

  // ── The store and the emit loop ─────────────────────────────────────────────

  datatype Subscription = Subscription(reg: Id, source: string, template: Template, durable: bool, lease: Id)

  /** The subscription wants the event: durable, same source, template satisfied by the
      attributes together with the event type. */
  predicate Wants(sub: Subscription, e: Event) {
    sub.durable && sub.source == e.source
    && (sub.template == map[] || Matches(sub.template, e.attrs["event_type" := e.kind]))
  }

  /** The subscription is durable, of the event's source, and each of its template values is
      satisfied by the event's attributes, the event type among them. */
  ghost predicate Gets(sub: Subscription, e: Event) {
    && sub.durable && sub.source == e.source
    && forall key :: key in sub.template ==> Satisfied(sub.template[key], key, e.attrs["event_type" := e.kind])
  }

  lemma WantsExactly(sub: Subscription, e: Event)
    ensures Wants(sub, e) <==> Gets(sub, e)
  {
    MatchesExactly(sub.template, e.attrs["event_type" := e.kind]);
  }

  /** Every mailbox whose subscription wants the event has it, except the skipped ones. */
  ghost predicate Delivered(before: map<Id, Mailbox>, now: map<Id, Mailbox>, subs: map<Id, Subscription>, e: Event, skipped: set<Id>) {
    && now.Keys == before.Keys == subs.Keys
    && forall reg :: reg in before ==>
         now[reg] == if Wants(subs[reg], e) && reg !in skipped then Enqueued(before[reg], e) else before[reg]
  }

  lemma NoneDelivered(before: map<Id, Mailbox>, subs: map<Id, Subscription>, e: Event, skipped: set<Id>)
    requires before.Keys == subs.Keys <= skipped
    ensures Delivered(before, before, subs, e, skipped)
  {}

  /** Delivery, mailbox by mailbox and without a word of how: a subscription gets the event
      under the number after its last, once, if it is durable, of the event's source and
      satisfied by it, and not skipped; every other mailbox is as it was. */
  lemma DeliveredExactly(before: map<Id, Mailbox>, now: map<Id, Mailbox>, subs: map<Id, Subscription>, e: Event, skipped: set<Id>)
    requires now.Keys == before.Keys == subs.Keys
    ensures Delivered(before, now, subs, e, skipped) <==>
            forall reg :: reg in before ==>
              now[reg] == if Gets(subs[reg], e) && reg !in skipped
                          then Mailbox(before[reg].lastSeq + 1, before[reg].entries[before[reg].lastSeq + 1 := e])
                          else before[reg]
  {
    hide Wants, Gets;
    forall reg | reg in subs ensures Wants(subs[reg], e) <==> Gets(subs[reg], e) { WantsExactly(subs[reg], e); }
  }

  lemma DeliverOne(before: map<Id, Mailbox>, now: map<Id, Mailbox>, subs: map<Id, Subscription>, e: Event, skipped: set<Id>, reg: Id)
    requires Delivered(before, now, subs, e, skipped) && reg in skipped && reg in subs
    ensures Delivered(before, if Wants(subs[reg], e) then now[reg := Enqueued(now[reg], e)] else now, subs, e, skipped - {reg})
  {
    hide Wants;
  }

  class EventStore {
    var subscriptions: map<Id, Subscription>
    var mailboxes: map<Id, Mailbox>

    /** Every subscription has its mailbox, and the numbering of each is sound. */
    ghost predicate Valid()
      reads this
    {
      && mailboxes.Keys == subscriptions.Keys
      && (forall reg :: reg in subscriptions ==> subscriptions[reg].reg == reg)
      && (forall reg :: reg in mailboxes ==> MailboxOk(mailboxes[reg]))
    }

    constructor ()
      ensures Valid() && subscriptions == map[]
    {
      subscriptions, mailboxes := map[], map[];
    }

    method CreateSubscription(sub: Subscription)
      requires Valid()
      modifies this
      ensures Valid() && subscriptions == old(subscriptions)[sub.reg := sub]
      ensures mailboxes == old(mailboxes)[sub.reg := Mailbox(0, map[])]
    {
      subscriptions := subscriptions[sub.reg := sub];
      mailboxes := mailboxes[sub.reg := Mailbox(0, map[])];
    }

    /** The cascade: drop the subscription a lease backs, with its mailbox. */
    method RemoveByLease(lease: Id) returns (r: Option<Subscription>)
      requires Valid()
      modifies this
      ensures Valid()
      ensures r.None? ==> subscriptions == old(subscriptions) && mailboxes == old(mailboxes)
                          && forall reg :: reg in subscriptions ==> subscriptions[reg].lease != lease
      ensures r.Some? ==>
                && r.value.lease == lease && r.value.reg in old(subscriptions) && old(subscriptions)[r.value.reg] == r.value
                && subscriptions == old(subscriptions) - {r.value.reg} && mailboxes == old(mailboxes) - {r.value.reg}
    {
      var todo := subscriptions.Keys;
      while todo != {}
        invariant todo <= subscriptions.Keys
        invariant forall reg :: reg in subscriptions && reg !in todo ==> subscriptions[reg].lease != lease
        decreases |todo|
      {
        var reg :| reg in todo;
        if subscriptions[reg].lease == lease {
          r := Some(subscriptions[reg]);
          subscriptions := subscriptions - {reg};
          mailboxes := mailboxes - {reg};
          return;
        }
        todo := todo - {reg};
      }
      return None;
    }

    /** Append under the next number; an unknown registration is reported. */
    method Enqueue(reg: Id, e: Event) returns (n: Option<nat>)
      requires Valid()
      modifies this`mailboxes
      ensures Valid()
      ensures n.None? <==> reg !in old(mailboxes)
      ensures n.None? ==> mailboxes == old(mailboxes)
      ensures n.Some? ==>
                && n.value == old(mailboxes)[reg].lastSeq + 1 && n.value !in old(mailboxes)[reg].entries
                && mailboxes == old(mailboxes)[reg := Enqueued(old(mailboxes)[reg], e)]
    {
      if reg !in mailboxes {
        return None;
      }
      n := Some(mailboxes[reg].lastSeq + 1);
      mailboxes := mailboxes[reg := Enqueued(mailboxes[reg], e)];
    }

    /** One emit: every subscription of the snapshot that wants the event gets it once, under
        its own next number, except where storage fails (`failing`), which is reported and
        keeps nobody else from getting it; no other mailbox changes. */
    method Emit(e: Event, failing: set<Id>) returns (failures: set<Id>)
      requires Valid()
      modifies this`mailboxes
      ensures Valid()
      ensures failures == set reg | reg in subscriptions && Wants(subscriptions[reg], e) && reg in failing
      ensures Delivered(old(mailboxes), mailboxes, subscriptions, e, failing)
    {
      hide MailboxOk, Wants, Delivered, Enqueued;
      failures := {};
      var todo := subscriptions.Keys;
      NoneDelivered(mailboxes, subscriptions, e, todo + failing);
      while todo != {}
        invariant Valid() && todo <= subscriptions.Keys
        invariant failures == set reg | reg in subscriptions && reg !in todo && Wants(subscriptions[reg], e) && reg in failing
        invariant Delivered(old(mailboxes), mailboxes, subscriptions, e, todo + failing)
        decreases |todo|
      {
        var reg :| reg in todo;
        DeliverOne(old(mailboxes), mailboxes, subscriptions, e, todo + failing, reg);
        if Wants(subscriptions[reg], e) {
          if reg in failing {
            failures := failures + {reg};
          } else {
            var _ := Enqueue(reg, e);
          }
        }
        assert todo - {reg} + failing == if reg in failing then todo + failing else todo + failing - {reg};
        todo := todo - {reg};
      }
    }
  }
}
