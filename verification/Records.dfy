/** Publishing and decommissioning one agent's record: the callers of the publisher
    (plugin/gitops_emitter/harness/hermes.py:1022-1149,
    plugin/gitops_emitter/decommission_cli.py:51-178). */
module Records {
  import opened Wrappers
  import opened Labels
  import opened Text
  import opened GitPaths
  import opened GitModel
  import opened PublishSpec
  import opened HeadSpec
  import opened GitHost
  import opened Publisher
  import opened Proposals

  datatype Config = Config(
    prMode: bool, allowDirectCommit: bool, autoMerge: bool, onGitHub: bool,
    branch: string, profilesPath: string)

  const NAMESPACE := "hermes-gitops/"

  function HeadBranch(name: string): string { NAMESPACE + name }

  /** The head branches are a namespace of the publisher's own; no base lives in it. */
  predicate OwnNamespace(cfg: Config) { !StartsWith(cfg.branch, NAMESPACE) }

  /** The request `publish_record` builds: the record, its catalogue, one reconciled tree. */
  function RecordRequest(name: string, record: File, catalogue: seq<File>): Request {
    Request(record, catalogue, ["catalog/dashboard/sources/" + name])
  }

  // ----- Publishing -------------------------------------------------------

  /** A publish of an accepted request, over the decision `publish_to_head` takes. */
  lemma DecideIsOnTheBase(base: Tip, head: Tip, req: Request, message: string, prefixes: seq<string>)
    requires WellFormed(TreeOf(base)) && RequestWithin(req, prefixes)
    ensures DecidedOn(Decide(base, head, req, message), base, head)
  {
    if Decide(base, head, req, message).Push? {
      forall f | f in req.Files() ensures Place(f) != [] {
        assert Within(f.rel, prefixes);
      }
      WritingKeepsWellFormed(SweptFor(TreeOf(base), req), req.Files());
    }
  }

  lemma HeadIsNotTheBase(cfg: Config, name: string)
    requires OwnNamespace(cfg)
    ensures HeadBranch(name) != cfg.branch && HeadBranch(name) == "hermes-gitops/" + name
  {
    assert HeadBranch(name)[..|NAMESPACE|] == NAMESPACE;
  }

  /** A publish in PR mode, said on refs and pull requests. */
  predicate PublishedByPull(refs: Refs, pulls: Pulls, refs': Refs, pulls': Pulls, guarded: set<string>, cfg: Config,
                            name: string, req: Request, message: string, admitted: bool, r: Published)
  {
    var head := HeadBranch(name);
    var d := Decide(TipIn(refs, cfg.branch), TipIn(refs, head), req, message);
    && (r, refs', pulls') == Pulling(refs, pulls, guarded, head, cfg.branch, message, d, cfg.autoMerge, admitted)
    && ByPull(refs, pulls, refs', pulls', guarded, head, cfg.branch, message, d, cfg.autoMerge, admitted, r)
  }

  /** PR mode, as it runs. */
  method PublishByPull(host: Host, cfg: Config, name: string, req: Request, message: string,
                       prefixes: seq<string>, admitted: bool) returns (r: Published)
    requires WellFormed(TreeOf(host.TipOf(cfg.branch))) && OneOpenEach(host.pulls) && OwnNamespace(cfg)
    modifies host
    ensures (r.HeadFailed? && r.head.HeadRefused?) <==> !RequestWithin(req, prefixes)
    ensures !RequestWithin(req, prefixes) ==> host.refs == old(host.refs) && host.pulls == old(host.pulls)
    ensures RequestWithin(req, prefixes) ==>
      PublishedByPull(old(host.refs), old(host.pulls), host.refs, host.pulls, host.guarded, cfg, name, req, message,
                      admitted, r)
  {
    var head := HeadBranch(name);
    HeadIsNotTheBase(cfg, name);
    if RequestWithin(req, prefixes) {
      DecideIsOnTheBase(host.TipOf(cfg.branch), host.TipOf(head), req, message, prefixes);
      PullingIsByPull(host.refs, host.pulls, host.guarded, head, cfg.branch, message,
                      Decide(host.TipOf(cfg.branch), host.TipOf(head), req, message), cfg.autoMerge, admitted);
    }
    var decided := PublishToHead(host, cfg.branch, head, req, message, prefixes);
    if !decided.Decided? || decided.decision.Unwritable? || decided.decision.NothingToCommit? {
      return HeadFailed(decided);
    }
    if decided.decision.BaseCarries? {
      return NoChange;
    }
    r := Propose(host, head, cfg.branch, message, decided.decision.commit, cfg.autoMerge, admitted);
  }

  /** `publish_record`. */
  method PublishRecord(host: Host, cfg: Config, name: string, record: File, catalogue: seq<File>, message: string,
                       prefixes: seq<string>, rivals: Rivals, admitted: bool) returns (r: Published)
    requires WellFormed(TreeOf(host.TipOf(cfg.branch))) && OneOpenEach(host.pulls) && OwnNamespace(cfg)
    modifies host
    ensures r.Direct? <==> !cfg.prMode || cfg.allowDirectCommit
    ensures r.NotGitHub? <==> !r.Direct? && !cfg.onGitHub
    ensures r.Direct? || r.NotGitHub? ==> host.pulls == old(host.pulls)
    ensures r.NotGitHub? || (r.Direct? && r.outcome.Refused?) ==> host.refs == old(host.refs)
    ensures r.Direct? ==> host.refs - {cfg.branch} == old(host.refs) - {cfg.branch}
    ensures r.Direct? && !r.outcome.Refused? ==>
      (r.outcome, host.TipOf(cfg.branch))
        == PublishStory(old(host.TipOf(cfg.branch)), RecordRequest(name, record, catalogue), message,
                        cfg.branch in host.guarded, rivals)
    ensures (r.HeadFailed? && r.head.HeadRefused?) ==> host.refs == old(host.refs) && host.pulls == old(host.pulls)
    ensures !r.Direct? && !r.NotGitHub? && !(r.HeadFailed? && r.head.HeadRefused?) ==>
      PublishedByPull(old(host.refs), old(host.pulls), host.refs, host.pulls, host.guarded, cfg, name,
                      RecordRequest(name, record, catalogue), message, admitted, r)
  {
    var req := RecordRequest(name, record, catalogue);
    if !cfg.prMode || cfg.allowDirectCommit {
      var outcome := Publish(host, cfg.branch, req, message, None, prefixes, rivals);
      return Direct(outcome);
    }
    if !cfg.onGitHub {
      return NotGitHub;
    }
    r := PublishByPull(host, cfg, name, req, message, prefixes, admitted);
  }

  // ----- Decommissioning --------------------------------------------------

  /** A record as the scan reads it; None when its YAML does not parse. */
  datatype Listed = Listed(name: string, spec: Option<(string, string)>)

  predicate Matches(l: Listed, source: string, subdir: Option<string>) {
    l.spec.Some? && l.spec.value.0 == source && (subdir.Some? ==> l.spec.value.1 == subdir.value)
  }

  function MatchingNames(records: seq<Listed>, source: string, subdir: Option<string>): seq<string> {
    if records == [] then []
    else
      var last := |records| - 1;
      MatchingNames(records[..last], source, subdir)
      + if Matches(records[last], source, subdir) then [records[last].name] else []
  }

  /** `_list_records_by_source`. */
  method ListBySource(records: seq<Listed>, source: string, subdir: Option<string>) returns (matches: seq<string>)
    ensures matches == MatchingNames(records, source, subdir)
    ensures forall n :: n in matches <==>
              exists l :: l in records && l.name == n && l.spec.Some? && l.spec.value.0 == source
                          && (subdir.None? || l.spec.value.1 == subdir.value)
  {
    matches := [];
    for i := 0 to |records|
      invariant matches == MatchingNames(records[..i], source, subdir)
      invariant forall n ::
        n in matches <==> exists l :: l in records[..i] && l.name == n && Matches(l, source, subdir)
    {
      assert records[..i + 1][..i] == records[..i];
      assert records[..i + 1] == records[..i] + [records[i]];
      var l := records[i];
      if l.spec.None? {
        continue;
      }
      if l.spec.value.0 != source {
        continue;
      }
      if subdir.Some? && l.spec.value.1 != subdir.value {
        continue;
      }
      matches := matches + [l.name];
    }
    assert records[..|records|] == records;
  }

  const MAX_NAME := 40

  predicate NameOk(name: string) { |name| <= MAX_NAME && MatchesLabel(name) }

  /** What a decommission removes: the record's directory and its catalogue entry. */
  function RemovedRels(cfg: Config, name: string): seq<string> {
    [cfg.profilesPath + "/" + name, "catalog/profiles/" + name]
  }

  datatype Decommissioned =
    | NoMatch
    | Ambiguous(names: seq<string>)
    | BadName
    | WrongForge
    | RemovalFailed(outcome: Outcome)
    | Absent                         // already gone
    | RemovedDirect(commit: Commit)
    | RemovalProposed(result: Published)

  class Overrides {
    /** Names that have a persisted override file. */
    var names: set<string>
    constructor (names: set<string>)
      ensures this.names == names
    {
      this.names := names;
    }
  }

  /** The name a decommission works on: given, or the one record of the source. */
  method ResolveName(given: Option<string>, records: seq<Listed>, source: string, subdir: Option<string>)
    returns (stop: Option<Decommissioned>, name: string)
    ensures var names := if given.Some? then [given.value] else MatchingNames(records, source, subdir);
      if names == [] then stop == Some(NoMatch)
      else if |names| > 1 then stop == Some(Ambiguous(names))
      else name == names[0] && stop == if NameOk(name) then None else Some(BadName)
    ensures stop.None? ==> 1 <= |name| <= 40
    ensures IsLabel(name) && |name| <= 40 ==> stop != Some(BadName)
  {
    name := "";
    if given.Some? {
      name := given.value;
    } else {
      var matches := ListBySource(records, source, subdir);
      if matches == [] {
        return Some(NoMatch), name;
      }
      if |matches| > 1 {
        return Some(Ambiguous(matches)), name;
      }
      name := matches[0];
    }
    stop := if NameOk(name) then None else Some(BadName);
  }

  function RemovalMessage(name: string): string { "gitops-emitter: decommission " + name }

  function RemovalPrefixes(cfg: Config): seq<string> { [cfg.profilesPath, "catalog"] }

  /** The removed paths pass the allowlist. */
  predicate RemovalAllowed(cfg: Config, name: string) { AllWithin(RemovedRels(cfg, name), RemovalPrefixes(cfg)) }

  predicate AllWithin(rels: seq<string>, prefixes: seq<string>) {
    Cleaned(prefixes) != [] && forall rel :: rel in rels ==> Within(rel, prefixes)
  }

  /** A removal's two cases, as a decision: the base has nothing to remove, or a push. */
  function RemovalDecision(base: Tip, rels: seq<string>, message: string): Decision {
    var t := TreeOf(base);
    if Removed(t, rels) == t then BaseCarries else Push(Commit(base, Removed(t, rels), message))
  }

  function PullReport(p: Published): Decommissioned {
    match p
    case NoChange => Absent
    case HeadFailed(_) => RemovalFailed(BranchGuarded)
    case _ => RemovalProposed(p)
  }

  function DirectReport(o: Outcome): Decommissioned {
    match o
    case Unchanged => Absent
    case Landed(c) => RemovedDirect(c)
    case _ => RemovalFailed(o)
  }

  /** In PR mode the base loses exactly the paths, and by the merge alone. */
  predicate RemovedByPull(refs: Refs, pulls: Pulls, refs': Refs, pulls': Pulls, guarded: set<string>, cfg: Config,
                          head: string, rels: seq<string>, message: string, admitted: bool, r: Decommissioned)
  {
    var d := RemovalDecision(TipIn(refs, cfg.branch), rels, message);
    var (p, after, ps) := Pulling(refs, pulls, guarded, head, cfg.branch, message, d, cfg.autoMerge, admitted);
    && r == PullReport(p) && refs' == after && pulls' == ps
    && ByPull(refs, pulls, refs', pulls', guarded, head, cfg.branch, message, d, cfg.autoMerge, admitted, p)
  }

  /** In direct mode it is the direct story on the one branch, and pull requests are left alone. */
  ghost predicate RemovedDirectly(refs: Refs, pulls: Pulls, refs': Refs, pulls': Pulls, guarded: set<string>,
                                  cfg: Config, name: string, rivals: Rivals, r: Decommissioned)
  {
    var (o, tip) := RemoveStory(TipIn(refs, cfg.branch), RemovedRels(cfg, name), RemovalMessage(name),
                                cfg.branch in guarded, rivals);
    && r == DirectReport(o) && TipIn(refs', cfg.branch) == tip
    && refs' - {cfg.branch} == refs - {cfg.branch} && pulls' == pulls
  }

  /** What a removal does: nothing when its paths are refused; else as its mode has it. */
  ghost predicate RemovalIs(refs: Refs, pulls: Pulls, refs': Refs, pulls': Pulls, guarded: set<string>, cfg: Config,
                            name: string, rivals: Rivals, admitted: bool, r: Decommissioned)
  {
    if !RemovalAllowed(cfg, name) then r.RemovalFailed? && r.outcome.Refused? && refs' == refs && pulls' == pulls
    else if cfg.prMode then
      RemovedByPull(refs, pulls, refs', pulls', guarded, cfg, HeadBranch(name), RemovedRels(cfg, name),
                    RemovalMessage(name), admitted, r)
    else RemovedDirectly(refs, pulls, refs', pulls', guarded, cfg, name, rivals, r)
  }

  /** What `remove_path` reports of a removal forced onto a head branch. */
  function ForcedOutcome(d: Decision, guarded: bool): Outcome
    requires d.BaseCarries? || d.Push?
  {
    if d.BaseCarries? then Unchanged else if guarded then BranchGuarded else Landed(d.commit)
  }

  /** After the push: the pull request and its merge. */
  method ProposeRemoval(host: Host, cfg: Config, head: string, message: string, outcome: Outcome, admitted: bool,
                        ghost refs: Refs, ghost d: Decision) returns (r: Decommissioned)
    requires OneOpenEach(host.pulls) && head != cfg.branch
    requires (d.BaseCarries? || d.Push?) && DecidedOn(d, TipIn(refs, cfg.branch), TipIn(refs, head))
    requires outcome == ForcedOutcome(d, head in host.guarded)
    requires host.refs == if outcome.Landed? then refs[head := outcome.commit] else refs
    modifies host
    ensures !Stopped(r) && (r.RemovalFailed? ==> r.outcome.BranchGuarded?)
    ensures var (p, after, ps) :=
        Pulling(refs, old(host.pulls), host.guarded, head, cfg.branch, message, d, cfg.autoMerge, admitted);
      && r == PullReport(p) && host.refs == after && host.pulls == ps
      && ByPull(refs, old(host.pulls), host.refs, host.pulls, host.guarded, head, cfg.branch, message, d,
                cfg.autoMerge, admitted, p)
  {
    PullingIsByPull(refs, host.pulls, host.guarded, head, cfg.branch, message, d, cfg.autoMerge, admitted);
    if outcome.Landed? {
      var proposed := Propose(host, head, cfg.branch, message, outcome.commit, cfg.autoMerge, admitted);
      r := RemovalProposed(proposed);
    } else {
      r := if outcome.Unchanged? then Absent else RemovalFailed(outcome);
    }
  }

  /** PR mode: the removal on the head branch, proposed and perhaps merged. */
  method RemoveByPull(host: Host, cfg: Config, head: string, rels: seq<string>, message: string,
                      prefixes: seq<string>, rivals: Rivals, admitted: bool) returns (r: Decommissioned)
    requires OneOpenEach(host.pulls) && head != cfg.branch && rels != []
    requires WellFormed(TreeOf(host.TipOf(cfg.branch)))
    modifies host
    ensures !Stopped(r)
    ensures (r.RemovalFailed? && r.outcome.Refused?) <==> !AllWithin(rels, prefixes)
    ensures !AllWithin(rels, prefixes) ==> host.refs == old(host.refs) && host.pulls == old(host.pulls)
    ensures AllWithin(rels, prefixes) ==>
      RemovedByPull(old(host.refs), old(host.pulls), host.refs, host.pulls, host.guarded, cfg, head, rels, message,
                    admitted, r)
  {
    ghost var refs, d := host.refs, RemovalDecision(host.TipOf(cfg.branch), rels, message);
    var outcome := RemovePath(host, cfg.branch, rels, message, Some(head), prefixes, rivals);
    if outcome.Refused? {
      return RemovalFailed(outcome);
    }
    r := ProposeRemoval(host, cfg, head, message, outcome, admitted, refs, d);
  }

  /** The removal itself: direct, or on the head branch and proposed. */
  method RemoveRecord(host: Host, cfg: Config, name: string, rivals: Rivals, admitted: bool) returns (r: Decommissioned)
    requires OneOpenEach(host.pulls) && OwnNamespace(cfg) && WellFormed(TreeOf(host.TipOf(cfg.branch)))
    modifies host
    ensures RemovalIs(old(host.refs), old(host.pulls), host.refs, host.pulls, host.guarded, cfg, name, rivals,
                      admitted, r)
    ensures !Stopped(r)
  {
    if cfg.prMode {
      HeadIsNotTheBase(cfg, name);
      r := RemoveByPull(host, cfg, HeadBranch(name), RemovedRels(cfg, name), RemovalMessage(name),
                        RemovalPrefixes(cfg), rivals, admitted);
    } else {
      var outcome := RemovePath(host, cfg.branch, RemovedRels(cfg, name), RemovalMessage(name), None,
                                RemovalPrefixes(cfg), rivals);
      r := DirectReport(outcome);
    }
  }

  /** `decommission`, by name or by the unique record of a source. A name it stops at changes
      nothing; the sticky override goes with every run that did not fail, and only then. */
  method Decommission(host: Host, overrides: Overrides, cfg: Config, given: Option<string>,
                      records: seq<Listed>, source: string, subdir: Option<string>,
                      rivals: Rivals, admitted: bool) returns (r: Decommissioned, name: string)
    requires OneOpenEach(host.pulls) && OwnNamespace(cfg) && WellFormed(TreeOf(host.TipOf(cfg.branch)))
    modifies host, overrides
    ensures var names := if given.Some? then [given.value] else MatchingNames(records, source, subdir);
      if names == [] then r == NoMatch
      else if |names| > 1 then r == Ambiguous(names)
      else
        && name == names[0]
        && (r.BadName? <==> !NameOk(name))
        && (r.WrongForge? <==> NameOk(name) && cfg.prMode && !cfg.onGitHub)
    ensures Stopped(r) ==> host.refs == old(host.refs) && host.pulls == old(host.pulls)
    ensures !Stopped(r) ==>
      && NameOk(name)
      && RemovalIs(old(host.refs), old(host.pulls), host.refs, host.pulls, host.guarded, cfg, name, rivals, admitted, r)
    ensures overrides.names == if Completed(r) then old(overrides.names) - {name} else old(overrides.names)
  {
    var stop: Option<Decommissioned>;
    stop, name := ResolveName(given, records, source, subdir);
    if stop.Some? {
      return stop.value, name;
    }
    if cfg.prMode && !cfg.onGitHub {
      return WrongForge, name;
    }
    r := RemoveRecord(host, cfg, name, rivals, admitted);
    if Completed(r) {
      overrides.names := overrides.names - {name};
    }
  }

  predicate Stopped(r: Decommissioned) { r.NoMatch? || r.Ambiguous? || r.BadName? || r.WrongForge? }

  predicate Completed(r: Decommissioned) {
    r.Absent? || r.RemovedDirect? || (r.RemovalProposed? && (r.result.Proposed? || r.result.Merged?))
  }
}
