/**
  The write-config init container and the volume it shares with the app: the
  config file, the generation marker, and what survives crashes and edits.
 */
module Volume {
  import opened Options
  import opened Cluster

  /** openclaw.json: its text, the generation it came from, and whether it was edited since. */
  datatype File = File(text: string, generation: nat, edited: bool)

  /** Where a pod's start-up stands; crashes can fall between any two steps. */
  datatype Progress = Check | WriteFile | WriteMarker | Up

  datatype Pod = NoPod | Pod(script: Script, at: Progress)

  datatype Volume = Volume(file: Option<File>, marker: Option<nat>, pod: Pod)

  const EMPTY := Volume(None, None, NoPod)

  datatype VolumeEvent = PodStart | InitStep | PodStop | LiveEdit(text: string) | DeleteFile | DeleteMarker

  /** One step of the write-config command. */
  function Init(v: Volume): Volume
    requires v.pod.Pod?
  {
    var s := v.pod.script;
    match v.pod.at
    case Check => v.(pod := v.pod.(at := if v.file == None || v.marker != Some(s.generation) then WriteFile else Up))
    case WriteFile => v.(file := Some(File(s.config, s.generation, false)), pod := v.pod.(at := WriteMarker))
    case WriteMarker => v.(marker := Some(s.generation), pod := v.pod.(at := Up))
    case Up => v
  }

  predicate AppRuns(v: Volume) {
    v.pod.Pod? && v.pod.at.Up?
  }

  /** Pods start one at a time from the deployed script; the app and its user touch files only after start-up. */
  function VolumeStep(v: Volume, deployed: Option<Script>, e: VolumeEvent): Volume {
    match e
    case PodStart => if v.pod.NoPod? && deployed.Some? then v.(pod := Pod(deployed.value, Check)) else v
    case InitStep => if v.pod.Pod? then Init(v) else v
    case PodStop => v.(pod := NoPod)
    case LiveEdit(text) => if AppRuns(v) then v.(file := Some(File(text, v.pod.script.generation, true))) else v
    case DeleteFile => if AppRuns(v) then v.(file := None) else v
    case DeleteMarker => if AppRuns(v) then v.(marker := None) else v
  }

  /** A later script is at least as new, and the same generation stands for the same config. */
  predicate NotNewer(a: Script, b: Script) {
    a.generation <= b.generation && (a.generation == b.generation ==> a.config == b.config)
  }

  predicate FileFrom(f: File, s: Script) {
    f.generation <= s.generation && (f.generation == s.generation && !f.edited ==> f.text == s.config)
  }

  /** How far along the running pod's start-up is shows in the files. */
  predicate PodAgrees(v: Volume) {
    v.pod.Pod? ==>
      && (v.file.Some? ==> FileFrom(v.file.value, v.pod.script))
      && (v.marker.Some? ==> v.marker.value <= v.pod.script.generation)
      && (v.pod.at.WriteFile? ==> v.file == None || v.marker != Some(v.pod.script.generation))
      && (v.pod.at.WriteMarker? ==> v.file == Some(File(v.pod.script.config, v.pod.script.generation, false)))
      && (v.pod.at.Up? ==>
            && (v.file.Some? ==> v.file.value.generation == v.pod.script.generation)
            && (v.marker.Some? ==> v.marker.value == v.pod.script.generation))
  }

  /** The protocol's invariant relative to the deployed script. */
  predicate VolumeInv(v: Volume, deployed: Option<Script>) {
    && (deployed == None ==> v == EMPTY)
    && PodAgrees(v)
    && (v.pod.Pod? && deployed.Some? ==> NotNewer(v.pod.script, deployed.value))
    && (v.file.Some? && deployed.Some? ==> FileFrom(v.file.value, deployed.value))
    && (v.marker.Some? && deployed.Some? ==> v.marker.value <= deployed.value.generation)
    && (v.file.Some? && v.marker.Some? ==> v.marker.value <= v.file.value.generation)
    && (v.file.Some? && v.file.value.edited && v.marker.Some? ==> v.marker.value == v.file.value.generation)
  }

  /** Marker generation <= file generation <= deployed generation, at every point of every run. */
  lemma GenerationOrder(v: Volume, deployed: Option<Script>)
    requires VolumeInv(v, deployed)
    ensures v.file.Some? && v.marker.Some? ==> v.marker.value <= v.file.value.generation
    ensures v.file.Some? ==> deployed.Some? && v.file.value.generation <= deployed.value.generation
    ensures v.marker.Some? ==> deployed.Some? && v.marker.value <= deployed.value.generation
  {
  }

  lemma VolumeStepInv(v: Volume, deployed: Option<Script>, e: VolumeEvent)
    requires VolumeInv(v, deployed)
    ensures VolumeInv(VolumeStep(v, deployed, e), deployed)
  {
  }

  /** Deploying a script that is no older keeps the invariant. */
  lemma DeployInv(v: Volume, deployed: Option<Script>, s: Script)
    requires VolumeInv(v, deployed) && (deployed.Some? ==> NotNewer(deployed.value, s))
    ensures VolumeInv(v, Some(s))
  {
  }

  /** Completed start-up leaves marker and file at the pod's generation, and an unedited file with its config. */
  lemma InitCompletes(v: Volume, deployed: Option<Script>)
    requires VolumeInv(v, deployed) && v.pod.Pod? && !v.pod.at.Up? && Init(v).pod.at.Up?
    ensures var r := Init(v);
      && r.file.Some? && r.file.value.generation == v.pod.script.generation
      && r.marker == Some(v.pod.script.generation)
      && (!r.file.value.edited ==> r.file.value.text == v.pod.script.config)
  {
  }

  /**
    The marker is where the protocol relies on it: an edited file has the marker
    of its generation, and so does a running app.
   */
  predicate Vouched(v: Volume) {
    && (v.file.Some? && v.file.value.edited ==> v.marker == Some(v.file.value.generation))
    && (AppRuns(v) ==> v.marker == Some(v.pod.script.generation))
  }

  /** Only deleting the marker takes it away; no crash between the two redirections does. */
  lemma VouchedStep(v: Volume, deployed: Option<Script>, e: VolumeEvent)
    requires VolumeInv(v, deployed) && Vouched(v)
    ensures Vouched(VolumeStep(v, deployed, e)) || e.DeleteMarker?
  {
  }

  /** A start-up that completes by writing the marker makes up for a deleted one. */
  lemma MarkerWritten(v: Volume, deployed: Option<Script>)
    requires VolumeInv(v, deployed) && v.pod.Pod? && v.pod.at.WriteMarker?
    ensures Vouched(Init(v))
  {
  }

  /**
    A live edit disappears only through a further edit, by deleting the file,
    for a newer generation, or after the marker was deleted.
   */
  lemma EditLostOnlyIf(v: Volume, deployed: Option<Script>, e: VolumeEvent)
    requires VolumeInv(v, deployed) && v.file.Some? && v.file.value.edited
    requires VolumeStep(v, deployed, e).file != v.file
    ensures e.LiveEdit? || e.DeleteFile? ||
      (e.InitStep? && v.pod.Pod? && (v.file.value.generation < v.pod.script.generation || !Vouched(v)))
  {
  }

  function RunVolume(v: Volume, deployed: Option<Script>, events: seq<VolumeEvent>): Volume {
    if events == [] then v
    else VolumeStep(RunVolume(v, deployed, events[..|events| - 1]), deployed, events[|events| - 1])
  }

  predicate IsRestart(e: VolumeEvent) {
    e.PodStart? || e.InitStep? || e.PodStop?
  }

  /** The file is at the deployed generation, and the marker vouches for it if it was edited. */
  predicate Settled(v: Volume, s: Script) {
    && v.file.Some? && v.file.value.generation == s.generation
    && (v.file.value.edited ==> v.marker == Some(s.generation))
  }

  /**
    However often pods crash and start-up is cut short, a file at the deployed
    generation stays as it is: an edit survives, and a file whose marker is still
    missing is only rewritten with the same text.
   */
  lemma {:induction false} RestartsHarmless(v: Volume, s: Script, events: seq<VolumeEvent>)
    requires VolumeInv(v, Some(s)) && Settled(v, s)
    requires forall i | 0 <= i < |events| :: IsRestart(events[i])
    ensures var r := RunVolume(v, Some(s), events);
      VolumeInv(r, Some(s)) && Settled(r, s) && r.file == v.file
  {
    if events != [] {
      var n := |events| - 1;
      RestartsHarmless(v, s, events[..n]);
      var u := RunVolume(v, Some(s), events[..n]);
      VolumeStepInv(u, Some(s), events[n]);
      assert IsRestart(events[n]);
      RestartStep(u, s, events[n]);
    }
  }

  lemma RestartStep(v: Volume, s: Script, e: VolumeEvent)
    requires VolumeInv(v, Some(s)) && Settled(v, s) && IsRestart(e)
    ensures Settled(VolumeStep(v, Some(s), e), s) && VolumeStep(v, Some(s), e).file == v.file
  {
  }

  /** After a crash at any point, an undisturbed start-up of the deployed script completes in at most three steps. */
  lemma RestartCompletes(v: Volume, s: Script)
    requires VolumeInv(v, Some(s)) && v.pod.NoPod?
    ensures var r := RunVolume(v, Some(s), [PodStart, InitStep, InitStep, InitStep]);
      && AppRuns(r) && r.marker == Some(s.generation)
      && r.file.Some? && r.file.value.generation == s.generation
      && (r.file.value.edited ==> r.file == v.file) && (!r.file.value.edited ==> r.file.value.text == s.config)
  {
    var es := [PodStart, InitStep, InitStep, InitStep];
    assert es[..3] == [PodStart, InitStep, InitStep];
    assert es[..3][..2] == [PodStart, InitStep] && es[..2][..1] == [PodStart];
    var a := VolumeStep(v, Some(s), PodStart);
    assert [PodStart][..0] == [];
    assert RunVolume(v, Some(s), [PodStart]) == a;
    assert RunVolume(v, Some(s), [PodStart, InitStep]) == Init(a);
    assert RunVolume(v, Some(s), [PodStart, InitStep, InitStep]) == Init(Init(a));
    assert RunVolume(v, Some(s), es) == Init(Init(Init(a)));
  }
}
