/** What the event-report messages S2F33, S2F35 and S2F37 leave behind, report by report and event by event. */
module GemCollections {
  import opened Outcomes
  import opened Bytes
  import opened Secs2Item
  import opened GemEquipment
  import opened GemHandler

  /** The entry is about the given number. */
  predicate Names(d: Item, id: uint32)
    requires Definition(d)
  {
    d.Len() >= 2 && FirstId(d.items[0]) == Some(id)
  }

  /** The variables of the last definition of a report. */
  function LastDefinition(defs: seq<Item>, id: uint32): (r: Option<Item>)
    requires forall d | d in defs :: Definition(d)
    ensures r.Some? ==> IdList(r.value)
  {
    if defs == [] then None
    else
      assert Definition(defs[0]);
      var later := LastDefinition(defs[1..], id);
      if later.Some? then later else if Names(defs[0], id) then Some(defs[0].items[1]) else None
  }

  /** The last definition of a report wins; one without variables deletes it; all other reports stay. */
  lemma {:induction false} LastDefinitionWins(reports: map<uint32, seq<uint32>>, defs: seq<Item>, id: uint32)
    requires forall d | d in defs :: Definition(d)
    ensures
      var last := LastDefinition(defs, id);
      var r := DefineReports(reports, defs);
      && (last.None? ==> (id in r <==> id in reports) && (id in r ==> r[id] == reports[id]))
      && (last.Some? && last.value.Len() == 0 ==> id !in r)
      && (last.Some? && last.value.Len() > 0 ==> id in r && r[id] == IdsOf(last.value))
    decreases defs
  {
    if defs != [] {
      assert Definition(defs[0]);
      LastDefinitionWins(DefineOne(reports, defs[0]), defs[1..], id);
    }
  }

  predicate AllKnown(reports: map<uint32, seq<uint32>>, list: Item)
    requires IdList(list)
  {
    forall r | r in IdsOf(list) :: r in reports
  }

  /** The reports of the last entry for an event that names known reports only. */
  function LastLink(reports: map<uint32, seq<uint32>>, links: seq<Item>, id: uint32): (r: Option<Item>)
    requires forall d | d in links :: Definition(d)
    ensures r.Some? ==> IdList(r.value) && AllKnown(reports, r.value)
  {
    if links == [] then None
    else
      assert Definition(links[0]);
      var later := LastLink(reports, links[1..], id);
      if later.Some? then later
      else if Names(links[0], id) && AllKnown(reports, links[0].items[1]) then Some(links[0].items[1])
      else None
  }

  /** A known event is linked by the last entry for it that names known reports only; nothing else changes. */
  lemma {:induction false} LastLinkWins(
      events: map<uint32, Event>, reports: map<uint32, seq<uint32>>, links: seq<Item>, id: uint32)
    requires forall d | d in links :: Definition(d)
    ensures
      var last := LastLink(reports, links, id);
      var r := LinkReports(events, reports, links);
      && r.Keys == events.Keys
      && (id in events ==>
            r[id] == if last.Some? then events[id].(reports := IdsOf(last.value)) else events[id])
    decreases links
  {
    if links != [] {
      assert Definition(links[0]);
      LastLinkWins(LinkOne(events, reports, links[0]), reports, links[1..], id);
    }
  }

  ghost predicate Lists(xs: seq<Item>, id: uint32) {
    exists x | x in xs :: Indexable(x) && FirstId(x) == Some(id)
  }

  /** Exactly the listed known events take the flag, and their links stay. */
  lemma {:induction false} ListedEventsSwitch(events: map<uint32, Event>, xs: seq<Item>, enabled: bool, id: uint32)
    requires forall x | x in xs :: Indexable(x)
    ensures
      var r := EnableEvents(events, xs, enabled);
      && r.Keys == events.Keys
      && (id in events ==> r[id] == if Lists(xs, id) then events[id].(enabled := enabled) else events[id])
    decreases xs
  {
    if xs != [] {
      assert Indexable(xs[0]);
      var next := if FirstId(xs[0]).None? then events else EnableEvent(events, FirstId(xs[0]).value, enabled);
      ListedEventsSwitch(next, xs[1..], enabled, id);
      assert xs == [xs[0]] + xs[1..];
      assert Lists(xs, id) <==> FirstId(xs[0]) == Some(id) || Lists(xs[1..], id);
    }
  }
}
