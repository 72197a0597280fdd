/** When a NodeClass waits for a control plane upgrade. */
module ControlPlane {
  import opened Wrappers

  datatype State = Completed | Partial

  datatype Entry = Entry(state: State, image: string, version: string)

  /** The control plane version status: the desired image and the history, newest first. */
  datatype Version = Version(desiredImage: string, history: seq<Entry>)

  /** The most recent release that completed. */
  function LastCompleted(history: seq<Entry>): Option<Entry> {
    if history == [] then None
    else if history[0].state == Completed then Some(history[0])
    else LastCompleted(history[1..])
  }

  function IsControlPlaneUpgrading(v: Version): bool {
    v.desiredImage != "" && LastCompleted(v.history).Some? && LastCompleted(v.history).value.image != v.desiredImage
  }

  function WaitsForControlPlaneUpgrade(v: Version, specVersion: string): bool {
    specVersion == "" && IsControlPlaneUpgrading(v)
  }

  /** Whatever attempts are recorded on top of the history, only completed ones can end an upgrade or begin one. */
  lemma {:induction false} PartialEntriesDoNotMatter(v: Version, partial: seq<Entry>)
    requires forall e :: e in partial ==> e.state == Partial
    ensures LastCompleted(partial + v.history) == LastCompleted(v.history)
    ensures IsControlPlaneUpgrading(v.(history := partial + v.history)) == IsControlPlaneUpgrading(v)
  {
    if partial == [] {
      assert partial + v.history == v.history;
    } else {
      PartialEntriesDoNotMatter(v, partial[1..]);
      assert (partial + v.history)[1..] == partial[1..] + v.history;
      assert (partial + v.history)[0] in partial;
    }
  }

  /** Upgrading means: some release has completed, and the newest such release is not the desired one. */
  lemma {:induction false} UpgradingMeans(v: Version)
    ensures IsControlPlaneUpgrading(v) <==>
      v.desiredImage != "" &&
      exists i :: 0 <= i < |v.history| && v.history[i].state == Completed && v.history[i].image != v.desiredImage
        && forall j :: 0 <= j < i ==> v.history[j].state != Completed
    decreases |v.history|
  {
    if v.history != [] && v.history[0].state != Completed {
      var rest := v.(history := v.history[1..]);
      UpgradingMeans(rest);
      if IsControlPlaneUpgrading(rest) {
        var i :| 0 <= i < |rest.history|
          && rest.history[i].state == Completed && rest.history[i].image != v.desiredImage
          && forall j :: 0 <= j < i ==> rest.history[j].state != Completed;
        assert v.history[i + 1] == rest.history[i];
        assert forall j :: 0 < j < i + 1 ==> v.history[j] == rest.history[j - 1];
      } else if v.desiredImage != "" {
        forall i | 0 <= i < |v.history| && v.history[i].state == Completed && v.history[i].image != v.desiredImage
          ensures exists j :: 0 <= j < i && v.history[j].state == Completed
        {
          assert rest.history[i - 1] == v.history[i];
          var j :| 0 <= j < i - 1 && rest.history[j].state == Completed;
          assert v.history[j + 1].state == Completed;
        }
      }
    }
  }

  /**
   Who waits: a NodeClass without a version of its own, while the newest completed release is not the desired one. A
   NodeClass with a version never waits.
   */
  lemma WaitsMeans(v: Version, specVersion: string)
    ensures WaitsForControlPlaneUpgrade(v, specVersion) <==>
      specVersion == "" && v.desiredImage != "" &&
      exists i :: 0 <= i < |v.history| && v.history[i].state == Completed && v.history[i].image != v.desiredImage
        && forall j :: 0 <= j < i ==> v.history[j].state != Completed
    ensures specVersion != "" ==> !WaitsForControlPlaneUpgrade(v, specVersion)
  {
    UpgradingMeans(v);
  }
}
