/** From Append to a query: what a queue has sent is what the read path gives back. */
module WriteReadRoundTrip {
  import opened Model
  import opened ShardMachine
  import opened QueueProtocol
  import opened QueueInvariant
  import opened QueueTheorems
  import opened LabelMatching
  import opened ExternalLabels

  /** Whatever a queue accepted is a relabelled sample that was appended. */
  lemma AcceptedWasAppended(c: Config, s: State, y: Sample) returns (x: Sample)
    requires ValidConfig(c) && Reachable(c, s) && !s.crashed && y in s.accepted
    ensures x in s.appended && Relabelled(c, x) == Some(y)
  {
    ReachableInv(c, s);
    assert y in multiset(s.accepted);
    assert y in multiset(Survivors(c, s.appended));
    SurvivorsAre(c, s.appended, y);
    var i :| 0 <= i < |s.appended| && Relabelled(c, s.appended[i]) == Some(y);
    x := s.appended[i];
  }

  lemma SentWasAccepted(c: Config, s: State, y: Sample)
    requires ValidConfig(c) && Reachable(c, s) && !s.crashed && y in Samples(s.finished)
    ensures y in s.accepted
  {
    ReachableInv(c, s);
    InvConservation(c, s);
    assert y in InSystem(s);
    assert y in multiset(InSystem(s));
    assert y in multiset(s.accepted);
  }

  ghost predicate KeepsLabels(c: Config) {
    forall labels :: c.relabel(labels) == Some(labels)
  }

  /** With relabelling that keeps every label: each sample a queue has sent comes from an appended
      one of that time and value, and where neither that nor the query mentions an external label,
      a query through the same external labels returns it exactly if the user's matchers accept the
      metric that was appended, and under that metric. */
  lemma SentReadsBack(c: Config, s: State, ms: seq<Matcher>, y: Sample) returns (x: Sample)
    requires ValidConfig(c) && Reachable(c, s) && !s.crashed && KeepsLabels(c) && y in Samples(s.finished)
    requires Names(ms) !! c.externalLabels.Keys
    requires forall a :: a in s.appended ==> a.metric.Keys !! c.externalLabels.Keys
    ensures x in s.appended && x.timestamp == y.timestamp && x.value == y.value
    ensures var added := Unnamed(c.externalLabels, ms);
            && (Matches(ms, y.metric) && Carries(y.metric, added) <==> Matches(ms, x.metric))
            && Strip(y.metric, added) == x.metric
  {
    SentWasAccepted(c, s, y);
    x := AcceptedWasAppended(c, s, y);
    ReadUndoesWrite(c.externalLabels, ms, x.metric);
  }
}
