/**
 The pipeline and the policy together (internal/plugin/stream_enforce.go:489-505, 582-629,
 internal/plugin/stream_policy.go:34-132): what the policy keeps in one transaction, the whole chain
 keeps from the host's input to the final output.
 */
module StreamProvenance {
  import D = StreamDiscipline
  import opened StreamPipeline
  import T = StreamTransaction
  import P = StreamPolicy

  /** The message a stream event is, as the policy reads it. */
  type View = D.Event -> T.Event

  function Viewed(view: View, es: seq<D.Event>): (r: seq<T.Event>)
    ensures |r| == |es| && forall i :: 0 <= i < |es| ==> r[i] == view(es[i])
  {
    seq(|es|, i requires 0 <= i < |es| => view(es[i]))
  }

  /** The plugin's finished scopes are judged by the policy under the grants `g`. */
  ghost predicate JudgedBy(p: Plugin, rules: T.Rules, view: View, g: P.Grants) {
    forall a, r :: p.policy(a, r) ==> T.TransactionOk(rules, g, Viewed(view, a), Viewed(view, r))
  }

  /** Every plugin is judged under grants that `all` covers. */
  ghost predicate Judged(plugins: seq<Plugin>, rules: T.Rules, view: View, grants: seq<P.Grants>, all: P.Grants) {
    && |grants| == |plugins|
    && forall k :: 0 <= k < |plugins| ==> JudgedBy(plugins[k], rules, view, grants[k]) && P.AtLeast(all, grants[k])
  }

  ghost function FactsOf(rules: T.Rules, view: View, all: P.Grants, es: seq<D.Event>): multiset<P.Fact> {
    T.AllFacts(rules, all, Viewed(view, es))
  }

  lemma StageKeepsFacts(p: Plugin, s: Stage, rules: T.Rules, view: View, g: P.Grants, all: P.Grants)
    requires JudgedBy(p, rules, view, g) && P.AtLeast(all, g) && Verified(p, s)
    ensures FactsOf(rules, view, all, s.accepted) == FactsOf(rules, view, all, s.returned)
  {
    hide T.TransactionOk, T.AllFacts, P.AtLeast;
    var a, r := Viewed(view, s.accepted), Viewed(view, s.returned);
    T.TransactionMonotone(rules, g, all, a, r);
    T.TransactionKeepsFacts(rules, all, a, r);
  }

  /** What one stage of a finished chain hands on carries the facts of what it was handed. */
  lemma LinkKeepsFacts(plugins: seq<Plugin>, v: Verifier, input: seq<D.Event>, rules: T.Rules, view: View,
                       grants: seq<P.Grants>, all: P.Grants, k: nat)
    requires ChainInv(plugins, v, input) && Judged(plugins, rules, view, grants, all) && k < |plugins|
    requires Finished(plugins[k], v.stages[k])
    ensures FactsOf(rules, view, all, Handed(v.stages, input, k + 1)) == FactsOf(rules, view, all, Handed(v.stages, input, k))
  {
    hide FactsOf, JudgedBy, P.AtLeast, Verified, Published, D.Run, AtRest;
    var p, s := plugins[k], v.stages[k];
    assert StageInv(p, s);
    if Verified(p, s) {
      StageKeepsFacts(p, s, rules, view, grants[k], all);
    }
  }

  /** All the stage's input was verified and released, or it had none. */
  ghost predicate Finished(p: Plugin, s: Stage) {
    Published(s) == s.returned && (s.accepted == [] || Verified(p, s))
  }

  lemma {:induction false} ChainKeepsFacts(plugins: seq<Plugin>, v: Verifier, input: seq<D.Event>, rules: T.Rules, view: View,
                                           grants: seq<P.Grants>, all: P.Grants, k: nat)
    requires k <= |plugins| == |v.stages| && ChainInv(plugins, v, input) && Judged(plugins, rules, view, grants, all)
    requires forall i :: 0 <= i < |plugins| ==> Finished(plugins[i], v.stages[i])
    ensures FactsOf(rules, view, all, Handed(v.stages, input, k)) == FactsOf(rules, view, all, input)
  {
    hide FactsOf, Judged, ChainInv, Finished, Published;
    if k > 0 {
      ChainKeepsFacts(plugins, v, input, rules, view, grants, all, k - 1);
      LinkKeepsFacts(plugins, v, input, rules, view, grants, all, k - 1);
    }
  }

  /**
   For any plugins judged by the policy, any replies and any input: when the end of the stream is
   accepted, the output carries exactly the facts of the input that no plugin's grants cover, so
   every host-owned fact arrives, none is added and none is altered, at any depth.
   */
  lemma HostFactsReachTheOutput(plugins: seq<Plugin>, replies: Replies, input: seq<D.Event>, rules: T.Rules, view: View,
                                grants: seq<P.Grants>, all: P.Grants)
    requires plugins != [] && Judged(plugins, rules, view, grants, all)
    requires RunStream(plugins, replies, input).0.Some? && EndStream(plugins, RunStream(plugins, replies, input).0.value)
    ensures FactsOf(rules, view, all, RunStream(plugins, replies, input).1) == FactsOf(rules, view, all, input)
  {
    hide FactsOf, Judged, Verified, ChainInv, RunStream, EndStream;
    EveryRunIsSafe(plugins, replies, input);
    EndReleasesEverything(plugins, replies, input);
    ChainKeepsFacts(plugins, RunStream(plugins, replies, input).0.value, input, rules, view, grants, all, |plugins|);
  }
}
