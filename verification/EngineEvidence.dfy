/** The evidence a source's incident is offered: the events its new detections
    matched and the high-risk events of the batch. */
module Offering {
  import opened Collections
  import opened Model
  import opened Rules
  import opened Iocs
  import opened Scoring
  import opened Correlation
  import opened Engine

  // ── The evidence of one source ───────────────────────────────────────────

  ghost predicate HasId(es: seq<Event>, id: string) {
    exists k :: 0 <= k < |es| && es[k].id == id
  }

  /** Candidate `m` is the last of the source that matched the event. */
  ghost predicate LastMatch(novel: seq<Candidate>, ip: string, id: string, m: nat) {
    && m < |novel| && IpOf(novel[m]) == ip && HasId(novel[m].matched, id)
    && forall n | m < n < |novel| && IpOf(novel[n]) == ip :: !HasId(novel[n].matched, id)
  }

  ghost predicate Unmatched(novel: seq<Candidate>, ip: string, id: string) {
    forall m | 0 <= m < |novel| && IpOf(novel[m]) == ip :: !HasId(novel[m].matched, id)
  }

  ghost predicate DistinctIds(ev: seq<Evidence>) {
    forall i, j | 0 <= i < j < |ev| :: ev[i].event.id != ev[j].event.id
  }

  lemma HasIdSnoc(es: seq<Event>, e: Event, id: string)
    ensures HasId(es + [e], id) <==> HasId(es, id) || e.id == id
  {
    if HasId(es, id) {
      var k :| 0 <= k < |es| && es[k].id == id;
      assert (es + [e])[k].id == id;
    }
    if e.id == id {
      assert (es + [e])[|es|].id == id;
    }
  }

  /** One event offered. */
  lemma OfferStep(ev: seq<Evidence>, e: Event, r: Reason)
    requires DistinctIds(ev)
    ensures var out := if Offered(ev, e.id) then Replace(ev, e, r) else ev + [Evidence(e, r)];
      && DistinctIds(out)
      && (forall id :: Offered(out, id) <==> Offered(ev, id) || id == e.id)
      && (forall k | 0 <= k < |out| :: if out[k].event.id == e.id then out[k] == Evidence(e, r) else out[k] in ev)
  {
    var out := if Offered(ev, e.id) then Replace(ev, e, r) else ev + [Evidence(e, r)];
    assert forall k | 0 <= k < |ev| :: out[k].event.id == ev[k].event.id;
    forall id
      ensures Offered(out, id) <==> Offered(ev, id) || id == e.id
    {
      if Offered(ev, id) {
        var k :| 0 <= k < |ev| && ev[k].event.id == id;
        assert out[k].event.id == id;
      } else if id == e.id {
        assert out[|ev|].event.id == id;
      }
    }
  }

  ghost predicate OfferedFrom(ev: seq<Evidence>, es: seq<Event>, r: Reason, x: Evidence) {
    if HasId(es, x.event.id) then x.reason == r && x.event in es else x in ev
  }

  /** What an offering of `es` under reason `r` leaves. */
  ghost predicate OfferedAs(ev: seq<Evidence>, es: seq<Event>, r: Reason, out: seq<Evidence>) {
    && (forall id :: Offered(out, id) <==> Offered(ev, id) || HasId(es, id))
    && forall k | 0 <= k < |out| :: OfferedFrom(ev, es, r, out[k])
  }

  lemma OfferedAsSnoc(ev: seq<Evidence>, rest: seq<Event>, r: Reason, before: seq<Evidence>, e: Event, out: seq<Evidence>)
    requires OfferedAs(ev, rest, r, before)
    requires forall id :: Offered(out, id) <==> Offered(before, id) || id == e.id
    requires forall k | 0 <= k < |out| :: if out[k].event.id == e.id then out[k] == Evidence(e, r) else out[k] in before
    ensures OfferedAs(ev, rest + [e], r, out)
  {
    hide Offered, HasId;
    forall id
      ensures HasId(rest + [e], id) <==> HasId(rest, id) || e.id == id
    {
      HasIdSnoc(rest, e, id);
    }
    forall k | 0 <= k < |out|
      ensures OfferedFrom(ev, rest + [e], r, out[k])
    {
      if out[k].event.id != e.id {
        assert OfferedFrom(ev, rest, r, out[k]);
      }
    }
  }

  lemma NothingOffered(ev: seq<Evidence>, r: Reason)
    ensures OfferedAs(ev, [], r, ev)
  {
    assert forall k | 0 <= k < |ev| :: ev[k] in ev;
  }

  /** After offering `es` under reason `r` each of them is offered under it, and
      the rest is as before. */
  lemma {:induction false} OfferIs(ev: seq<Evidence>, es: seq<Event>, r: Reason, out: seq<Evidence>)
    requires DistinctIds(ev) && out == Offer(ev, es, r)
    ensures DistinctIds(out) && OfferedAs(ev, es, r, out)
  {
    hide Offered, DistinctIds, Replace, OfferedAs;
    if es == [] {
      NothingOffered(ev, r);
    } else {
      var rest, e := es[..|es| - 1], es[|es| - 1];
      var before := Offer(ev, rest, r);
      OfferIs(ev, rest, r, before);
      OfferStep(before, e, r);
      OfferedAsSnoc(ev, rest, r, before, e, out);
      assert es == rest + [e];
    }
  }

  lemma LastMatchSnoc(novel: seq<Candidate>, c: Candidate, ip: string, id: string, m: nat)
    ensures m < |novel| && !(IpOf(c) == ip && HasId(c.matched, id)) ==>
      (LastMatch(novel + [c], ip, id, m) <==> LastMatch(novel, ip, id, m))
    ensures IpOf(c) == ip && HasId(c.matched, id) ==> LastMatch(novel + [c], ip, id, |novel|)
    ensures Unmatched(novel + [c], ip, id) <==> Unmatched(novel, ip, id) && !(IpOf(c) == ip && HasId(c.matched, id))
  {
    hide IpOf, HasId;
    var more := novel + [c];
    assert more[|novel|] == c;
    assert forall n | 0 <= n < |novel| :: more[n] == novel[n];
  }

  /** An event is offered for the reason of the last candidate that matched it. */
  ghost predicate FromMatch(novel: seq<Candidate>, ip: string, x: Evidence) {
    exists m: nat :: m < |novel| && LastMatch(novel, ip, x.event.id, m) && x.reason == novel[m].reason
                     && x.event in novel[m].matched
  }

  lemma FromMatchSnoc(novel: seq<Candidate>, c: Candidate, ip: string, x: Evidence)
    requires FromMatch(novel, ip, x) && !(IpOf(c) == ip && HasId(c.matched, x.event.id))
    ensures FromMatch(novel + [c], ip, x)
  {
    hide IpOf, HasId, LastMatch;
    var m: nat :| m < |novel| && LastMatch(novel, ip, x.event.id, m) && x.reason == novel[m].reason
                  && x.event in novel[m].matched;
    LastMatchSnoc(novel, c, ip, x.event.id, m);
    assert (novel + [c])[m] == novel[m];
  }

  lemma MatchedLast(novel: seq<Candidate>, ip: string, x: Evidence, m: nat)
    requires m < |novel| && LastMatch(novel, ip, x.event.id, m)
    requires x.reason == novel[m].reason && x.event in novel[m].matched
    ensures FromMatch(novel, ip, x)
  {
  }

  /** One more candidate, of this source or another. */
  lemma OneMoreMatched(rest: seq<Candidate>, c: Candidate, ip: string, before: seq<Evidence>, ev: seq<Evidence>)
    requires forall id :: Offered(before, id) <==> !Unmatched(rest, ip, id)
    requires forall k | 0 <= k < |before| :: FromMatch(rest, ip, before[k])
    requires if IpOf(c) == ip
             then (forall id :: Offered(ev, id) <==> Offered(before, id) || HasId(c.matched, id))
               && forall k | 0 <= k < |ev| ::
                    if HasId(c.matched, ev[k].event.id) then ev[k].reason == c.reason && ev[k].event in c.matched
                    else ev[k] in before
             else ev == before
    ensures forall id :: Offered(ev, id) <==> !Unmatched(rest + [c], ip, id)
    ensures forall k | 0 <= k < |ev| :: FromMatch(rest + [c], ip, ev[k])
  {
    hide Offered, HasId, IpOf, FromMatch, Unmatched, LastMatch;
    forall id
      ensures Offered(ev, id) <==> !Unmatched(rest + [c], ip, id)
    {
      LastMatchSnoc(rest, c, ip, id, 0);
    }
    forall k | 0 <= k < |ev|
      ensures FromMatch(rest + [c], ip, ev[k])
    {
      if IpOf(c) == ip && HasId(c.matched, ev[k].event.id) {
        LastMatchSnoc(rest, c, ip, ev[k].event.id, 0);
        MatchedLast(rest + [c], ip, ev[k], |rest|);
      } else {
        assert ev[k] in before;
        FromMatchSnoc(rest, c, ip, ev[k]);
      }
    }
  }

  lemma NothingMatched(ip: string)
    ensures DistinctIds([]) && forall id :: !Offered([], id) && Unmatched([], ip, id)
  {
  }

  lemma {:induction false} MatchesOffered(novel: seq<Candidate>, ip: string, ev: seq<Evidence>)
    requires ev == EvidenceFor(novel, ip)
    ensures DistinctIds(ev)
    ensures forall id :: Offered(ev, id) <==> !Unmatched(novel, ip, id)
    ensures forall k | 0 <= k < |ev| :: FromMatch(novel, ip, ev[k])
  {
    hide Offered, DistinctIds, HasId, IpOf, Offer, FromMatch, Unmatched, LastMatch;
    if novel == [] {
      NothingMatched(ip);
    } else {
      var rest, c := novel[..|novel| - 1], novel[|novel| - 1];
      var before := EvidenceFor(rest, ip);
      MatchesOffered(rest, ip, before);
      assert novel == rest + [c];
      if IpOf(c) == ip {
        OfferIs(before, c.matched, c.reason, ev);
      }
      OneMoreMatched(rest, c, ip, before, ev);
    }
  }

  ghost predicate HighRiskOf(es: seq<Event>, id: string) {
    exists k :: 0 <= k < |es| && es[k].id == id && EventRisk(es[k]) >= 80.0
  }

  lemma NoHighRisk()
    ensures forall id :: !HighRiskOf([], id)
  {
  }

  lemma HighRiskSnoc(es: seq<Event>, e: Event, id: string)
    ensures HighRiskOf(es + [e], id) <==> HighRiskOf(es, id) || (e.id == id && EventRisk(e) >= 80.0)
  {
    hide EventRisk;
    if HighRiskOf(es, id) {
      var k :| 0 <= k < |es| && es[k].id == id && EventRisk(es[k]) >= 80.0;
      assert (es + [e])[k].id == id;
    }
    if e.id == id && EventRisk(e) >= 80.0 {
      assert (es + [e])[|es|].id == id;
    }
  }

  lemma OfferedSnoc(ev: seq<Evidence>, x: Evidence)
    ensures forall id :: Offered(ev + [x], id) <==> Offered(ev, id) || x.event.id == id
    ensures forall k | 0 <= k < |ev| :: Offered(ev, ev[k].event.id)
  {
    forall id
      ensures Offered(ev + [x], id) <==> Offered(ev, id) || x.event.id == id
    {
      if Offered(ev, id) {
        var k :| 0 <= k < |ev| && ev[k].event.id == id;
        assert (ev + [x])[k].event.id == id;
      }
      if x.event.id == id {
        assert (ev + [x])[|ev|].event.id == id;
      }
    }
  }

  /** High-risk events not offered yet follow, for that reason. */
  lemma {:induction false} HighRiskAdded(ev: seq<Evidence>, es: seq<Event>, out: seq<Evidence>)
    requires DistinctIds(ev) && out == AddHighRisk(ev, es)
    ensures DistinctIds(out) && ev <= out
    ensures forall id :: Offered(out, id) <==> Offered(ev, id) || HighRiskOf(es, id)
    ensures forall k | |ev| <= k < |out| ::
      && out[k].event in es && EventRisk(out[k].event) >= 80.0 && !Offered(ev, out[k].event.id)
      && out[k].reason == HighRisk(EventRisk(out[k].event), out[k].event.sensor)
  {
    hide EventRisk, Offered, HighRiskOf;
    if es == [] {
      NoHighRisk();
    } else {
      var rest, e := es[..|es| - 1], es[|es| - 1];
      var before := AddHighRisk(ev, rest);
      HighRiskAdded(ev, rest, before);
      assert es == rest + [e];
      OfferedSnoc(before, Evidence(e, HighRisk(EventRisk(e), e.sensor)));
      forall id
        ensures HighRiskOf(es, id) <==> HighRiskOf(rest, id) || (e.id == id && EventRisk(e) >= 80.0)
      {
        HighRiskSnoc(rest, e, id);
      }
    }
  }

  /** Where a piece of evidence comes from: the last candidate that matched the
      event, or, unmatched, a high-risk event of the source in the batch. */
  ghost predicate Grounded(novel: seq<Candidate>, batch: seq<Event>, ip: string, x: Evidence) {
    || FromMatch(novel, ip, x)
    || (&& Unmatched(novel, ip, x.event.id)
        && x.event in batch && x.event.sourceIp == ip && EventRisk(x.event) >= 80.0
        && x.reason == HighRisk(EventRisk(x.event), x.event.sensor))
  }

  /** All that a source's evidence holds, and that it holds it all. */
  ghost predicate Complete(novel: seq<Candidate>, batch: seq<Event>, ip: string, ev: seq<Evidence>) {
    && DistinctIds(ev)
    && (forall k | 0 <= k < |ev| :: Grounded(novel, batch, ip, ev[k]))
    && (forall m, e | 0 <= m < |novel| && IpOf(novel[m]) == ip && e in novel[m].matched :: Offered(ev, e.id))
    && (forall e | e in batch && e.sourceIp == ip && EventRisk(e) >= 80.0 :: Offered(ev, e.id))
  }

  lemma MatchedId(novel: seq<Candidate>, ip: string, m: nat, e: Event)
    requires m < |novel| && IpOf(novel[m]) == ip && e in novel[m].matched
    ensures !Unmatched(novel, ip, e.id)
  {
    hide IpOf;
    var k :| 0 <= k < |novel[m].matched| && novel[m].matched[k] == e;
    assert HasId(novel[m].matched, e.id);
  }

  lemma HighRiskListed(es: seq<Event>, e: Event)
    requires e in es && EventRisk(e) >= 80.0
    ensures HighRiskOf(es, e.id)
  {
    hide EventRisk;
    var k :| 0 <= k < |es| && es[k] == e;
  }

  lemma EvidenceComplete(novel: seq<Candidate>, batch: seq<Event>, ip: string, ev: seq<Evidence>)
    requires ev == AddHighRisk(EvidenceFor(novel, ip), Filter(batch, FromSource(ip)))
    ensures Complete(novel, batch, ip, ev)
  {
    hide EvidenceFor, AddHighRisk, EventRisk, Offered, IpOf, Filter, FromMatch, Unmatched, DistinctIds, HighRiskOf;
    var mine := Filter(batch, FromSource(ip));
    var matched := EvidenceFor(novel, ip);
    MatchesOffered(novel, ip, matched);
    HighRiskAdded(matched, mine, ev);
    forall k | 0 <= k < |ev|
      ensures Grounded(novel, batch, ip, ev[k])
    {
      if k >= |matched| {
        FilterIn(batch, FromSource(ip), ev[k].event);
      } else {
        assert ev[k] == matched[k];
      }
    }
    forall m, e | 0 <= m < |novel| && IpOf(novel[m]) == ip && e in novel[m].matched
      ensures Offered(ev, e.id)
    {
      MatchedId(novel, ip, m, e);
    }
    forall e | e in batch && e.sourceIp == ip && EventRisk(e) >= 80.0
      ensures Offered(ev, e.id)
    {
      FilterIn(batch, FromSource(ip), e);
      HighRiskListed(mine, e);
    }
  }

  lemma InputEvidence(r: Reading, base: nat, novel: seq<Candidate>, ip: string)
    ensures Complete(novel, r.batch, ip, InputFor(r, base, novel, ip).evidence)
  {
    hide EvidenceFor, AddHighRisk, AllIocs, MalwareLinked, MaxRisk, Filter, Dedup, RowsFor, Complete;
    EvidenceComplete(novel, r.batch, ip, InputFor(r, base, novel, ip).evidence);
  }
}
