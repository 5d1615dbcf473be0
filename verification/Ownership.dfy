/** Observed engine objects and what their labels prove about who owns them. */
module Ownership {
  import opened Common

  const NAMESPACE := "com.zackees.bosn"
  const LABEL_REGISTRY := "com.zackees.bosn.registry"
  const LABEL_RETENTION := "com.zackees.bosn.retention"
  const REQUIRED_LABELS := [
    LABEL_REGISTRY, "com.zackees.bosn.kind", "com.zackees.bosn.stack", "com.zackees.bosn.generation",
    "com.zackees.bosn.scope", "com.zackees.bosn.workspace", "com.zackees.bosn.created"]

  datatype Kind = Container | Volume | Image | Builder | Network

  datatype Signals = Signals(inUse: bool, dangling: bool, anonymous: bool)

  type Labels = map<string, string>

  datatype Artifact = Artifact(id: string, kind: Kind, labels: Labels, signals: Signals, bytes: Option<int>, age: Option<real>)

  datatype Owner = Ours | Foreign | Incomplete | Unlabelled

  predicate IsBosnLabel(key: string) {
    key == NAMESPACE || (|key| > |NAMESPACE| && key[..|NAMESPACE|] == NAMESPACE && key[|NAMESPACE|] == '.')
  }

  predicate AnyBosnLabel(labels: Labels) {
    exists key :: key in labels && IsBosnLabel(key)
  }

  predicate AllRequired(labels: Labels) {
    forall key :: key in REQUIRED_LABELS ==> key in labels
  }

  function ClassifyOwnership(labels: Labels, ours: Option<string>): Owner {
    if !AnyBosnLabel(labels) then Unlabelled
    else if !AllRequired(labels) then Incomplete
    else if LABEL_REGISTRY in labels && ours == Some(labels[LABEL_REGISTRY]) then Ours
    else Foreign
  }

  predicate IsPinned(labels: Labels) {
    LABEL_RETENTION in labels && labels[LABEL_RETENTION] == "pinned"
  }

  /** Ownership is proven by the complete label set naming this registry, and by nothing else. */
  ghost predicate ProvenOurs(labels: Labels, ours: Option<string>) {
    AllRequired(labels) && ours.Some? && labels[LABEL_REGISTRY] == ours.value
  }

  /** The namespace itself, or anything under it. */
  lemma {:induction false} BosnLabelExact(key: string)
    ensures IsBosnLabel(key) <==> key == "com.zackees.bosn" || "com.zackees.bosn." <= key
  {
    var dotted := NAMESPACE + ".";
    assert dotted == "com.zackees.bosn.";
    assert dotted[..|NAMESPACE|] == NAMESPACE && dotted[|NAMESPACE|] == '.';
    if IsBosnLabel(key) && key != NAMESPACE {
      assert key[..|dotted|] == key[..|NAMESPACE|] + [key[|NAMESPACE|]];
    }
    if dotted <= key {
      assert key[..|dotted|] == dotted;
      assert key[..|NAMESPACE|] == key[..|dotted|][..|NAMESPACE|] && key[|NAMESPACE|] == key[..|dotted|][|NAMESPACE|];
    }
  }

  lemma {:induction false} RegistryLabelIsBosn()
    ensures IsBosnLabel(LABEL_REGISTRY)
  {
    assert LABEL_REGISTRY[..|NAMESPACE|] == NAMESPACE;
  }

  lemma {:induction false} OwnershipExact(labels: Labels, ours: Option<string>)
    ensures ClassifyOwnership(labels, ours) == Ours <==> ProvenOurs(labels, ours)
    ensures ClassifyOwnership(labels, ours) == Unlabelled <==> forall key :: key in labels ==> !IsBosnLabel(key)
    ensures ClassifyOwnership(labels, ours) == Incomplete <==> AnyBosnLabel(labels) && !AllRequired(labels)
  {
    RegistryLabelIsBosn();
    assert LABEL_REGISTRY in REQUIRED_LABELS;
  }

  lemma {:induction false} PinIsBosnLabel()
    ensures IsBosnLabel(LABEL_RETENTION)
  {
    assert LABEL_RETENTION[..|NAMESPACE|] == NAMESPACE;
  }
}
