/**
 Optimistic replacement of verification keys across awaits: Auth0 snapshot installation and provider
 key replacement. Any number of calls are in flight; each is resumed, refused or abandoned at its awaits.
 */
module KeySnapshots {
  import opened Wrappers

  const MAX_SAFE_INTEGER: int := 9_007_199_254_740_991

  predicate Positive(n: int) { 0 < n <= MAX_SAFE_INTEGER }

  /** Signature, provenance and validity window are judged by others; `trusted` is that verdict. */
  datatype Document = Document(revision: int, previousRevision: int, trusted: bool)

  /** The awaits of an installation, in order. */
  datatype Stage = ReadingHead | InitializingKeys | MatchingHead

  /** A published snapshot is one object; its place in the history is its identity. */
  datatype Install = Install(document: Document, prior: nat, stage: Stage)

  datatype Replacement = Replacement(revision: int)

  datatype Keys = Keys(published: seq<Document>, installs: map<nat, Install>,
                       revisions: seq<int>, replacements: map<nat, Replacement>)

  datatype Event =
    | BeginInstall(call: nat, document: Document)
    | ResumeInstall(call: nat, accepted: bool)
    | BeginReplace(call: nat, revision: int)
    | ResumeReplace(call: nat, accepted: bool)

  const NO_KEYS := Keys([], map[], [], map[])

  /** The chain check made before the first await, against the snapshot active then. */
  predicate Chains(published: seq<Document>, s: Document) {
    && Positive(s.revision) && 0 <= s.previousRevision < s.revision
    && (published != [] ==>
          var prior := published[|published| - 1];
          s.revision > prior.revision && s.previousRevision == prior.revision)
  }

  function Current(revisions: seq<int>): int {
    if revisions == [] then 0 else revisions[|revisions| - 1]
  }

  function Step(k: Keys, e: Event): Keys {
    match e
    case BeginInstall(c, s) =>
      if c in k.installs || !s.trusted || !Chains(k.published, s) then k
      else k.(installs := k.installs[c := Install(s, |k.published|, ReadingHead)])
    case ResumeInstall(c, accepted) =>
      if c !in k.installs then k
      else
        var i := k.installs[c];
        if !accepted then k.(installs := k.installs - {c})
        else if i.stage == ReadingHead then k.(installs := k.installs[c := i.(stage := InitializingKeys)])
        else if i.stage == InitializingKeys then k.(installs := k.installs[c := i.(stage := MatchingHead)])
        else if |k.published| != i.prior then k.(installs := k.installs - {c})
        else k.(installs := k.installs - {c}, published := k.published + [i.document])
    case BeginReplace(c, revision) =>
      if c in k.replacements || !Positive(revision) || revision <= Current(k.revisions) then k
      else k.(replacements := k.replacements[c := Replacement(revision)])
    case ResumeReplace(c, accepted) =>
      if c !in k.replacements then k
      else
        var r := k.replacements[c];
        if !accepted || r.revision <= Current(k.revisions) then k.(replacements := k.replacements - {c})
        else k.(replacements := k.replacements - {c}, revisions := k.revisions + [r.revision])
  }

  function Run(events: seq<Event>): Keys {
    if events == [] then NO_KEYS else Step(Run(events[..|events| - 1]), events[|events| - 1])
  }

  ghost predicate Linked(published: seq<Document>) {
    && (forall i :: 0 <= i < |published| ==> Positive(published[i].revision))
    && (forall i :: 0 < i < |published| ==> published[i].previousRevision == published[i - 1].revision)
    && (forall i, j :: 0 <= i < j < |published| ==> published[i].revision < published[j].revision)
  }

  ghost predicate Increasing(revisions: seq<int>) {
    && (forall i :: 0 <= i < |revisions| ==> Positive(revisions[i]))
    && (forall i, j :: 0 <= i < j < |revisions| ==> revisions[i] < revisions[j])
  }

  /** A call that still holds the active snapshot as its prior still continues the chain. */
  ghost predicate Continues(published: seq<Document>, i: Install) {
    i.prior <= |published| && Chains(published[..i.prior], i.document)
  }

  ghost predicate Valid(k: Keys) {
    && Linked(k.published) && Increasing(k.revisions)
    && (forall c :: c in k.installs ==> Continues(k.published, k.installs[c]))
    && (forall c :: c in k.replacements ==> Positive(k.replacements[c].revision))
  }

  lemma LinkedGrows(published: seq<Document>, s: Document)
    requires Linked(published) && Chains(published, s)
    ensures Linked(published + [s])
  {
    var grown := published + [s];
    forall i, j | 0 <= i < j < |grown| ensures grown[i].revision < grown[j].revision {
      if j == |published| && i < |published| - 1 {
        assert published[i].revision < published[|published| - 1].revision;
      }
    }
  }

  lemma IncreasingGrows(revisions: seq<int>, revision: int)
    requires Increasing(revisions) && Positive(revision) && revision > Current(revisions)
    ensures Increasing(revisions + [revision])
  {
    var grown := revisions + [revision];
    forall i, j | 0 <= i < j < |grown| ensures grown[i] < grown[j] {
      if j == |revisions| && i < |revisions| - 1 { assert revisions[i] < revisions[|revisions| - 1]; }
    }
  }

  lemma ContinuesGrows(published: seq<Document>, s: Document, i: Install)
    requires Continues(published, i)
    ensures Continues(published + [s], i)
  {
    assert (published + [s])[..i.prior] == published[..i.prior];
  }

  lemma StepValid(k: Keys, e: Event)
    requires Valid(k)
    ensures Valid(Step(k, e))
  {
    match e
    case BeginInstall(c, s) =>
      assert k.published[..|k.published|] == k.published;
    case ResumeInstall(c, _) =>
      if Step(k, e).published != k.published {
        var i := k.installs[c];
        assert k.published[..i.prior] == k.published;
        LinkedGrows(k.published, i.document);
        forall d | d in k.installs ensures Continues(k.published + [i.document], k.installs[d]) {
          ContinuesGrows(k.published, i.document, k.installs[d]);
        }
      }
    case BeginReplace(_, _) =>
    case ResumeReplace(c, _) =>
      if Step(k, e).revisions != k.revisions { IncreasingGrows(k.revisions, k.replacements[c].revision); }
  }

  lemma {:induction false} RunValid(events: seq<Event>)
    ensures Valid(Run(events))
  {
    if events != [] {
      RunValid(events[..|events| - 1]);
      StepValid(Run(events[..|events| - 1]), events[|events| - 1]);
    }
  }

  /** Over every interleaving the published snapshots form one chain of increasing revisions. */
  lemma SnapshotsFormAChain(events: seq<Event>, i: nat, j: nat)
    requires i < j < |Run(events).published|
    ensures Run(events).published[i].revision < Run(events).published[j].revision
    ensures j == i + 1 ==> Run(events).published[j].previousRevision == Run(events).published[i].revision
  {
    RunValid(events);
  }

  /** Overlapping replacements never publish a lower or an equal revision. */
  lemma KeyRevisionsOnlyIncrease(events: seq<Event>, i: nat, j: nat)
    requires i < j < |Run(events).revisions|
    ensures 0 < Run(events).revisions[i] < Run(events).revisions[j]
  {
    RunValid(events);
  }

  /** Of the calls that began on one snapshot at most one publishes: a publication outdates the others. */
  lemma PublicationOutdatesRivals(k: Keys, c: nat, d: nat)
    requires Valid(k) && c != d && c in k.installs && d in k.installs
    requires k.installs[c].prior == k.installs[d].prior && k.installs[d].stage == MatchingHead
    requires Step(k, ResumeInstall(c, true)).published != k.published
    ensures var next := Step(k, ResumeInstall(c, true));
            Step(next, ResumeInstall(d, true)).published == next.published
  {
  }

  class SnapshotRegistry {
    var published: seq<Document>
    var revisions: seq<int>

    constructor ()
      ensures published == [] && revisions == []
    {
      published, revisions := [], [];
    }

    /** The last part of an installation, after its awaits: publish unless another call did meanwhile. */
    method Publish(call: nat, install: Install) returns (ok: bool)
      requires install.stage == MatchingHead
      modifies this`published
      ensures ok <==> |old(published)| == install.prior
      ensures var k := Keys(old(published), map[call := install], old(revisions), map[]);
              published == Step(k, ResumeInstall(call, true)).published
    {
      ok := |published| == install.prior;
      if ok { published := published + [install.document]; }
    }

    /** The last part of a key replacement: the revision is compared again after the await. */
    method ReplaceKeys(call: nat, replacement: Replacement) returns (ok: bool)
      modifies this`revisions
      ensures ok <==> replacement.revision > Current(old(revisions))
      ensures var k := Keys(old(published), map[], old(revisions), map[call := replacement]);
              revisions == Step(k, ResumeReplace(call, true)).revisions
    {
      ok := replacement.revision > Current(revisions);
      if ok { revisions := revisions + [replacement.revision]; }
    }
  }
}
