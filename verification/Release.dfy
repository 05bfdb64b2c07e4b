/** Publishing a build's files: any number of runs list, upload, list again and delete, interleaved over one
    repository's releases. A release is its rank in the order carriers() sorts by, the oldest lowest. */
module Release {

  type Name = string
  type Rank = nat

  // ---- naming ----

  predicate Kept(c: char) {
    'A' <= c <= 'Z' || 'a' <= c <= 'z' || '0' <= c <= '9' || c in {'.', '_', '+', '-'}
  }

  /** stored_name: the name GitHub gives an uploaded asset. */
  function StoredName(name: Name): (r: Name)
    ensures |r| == |name| && forall i | 0 <= i < |name| :: r[i] == if Kept(name[i]) then name[i] else '.'
  {
    seq(|name|, i requires 0 <= i < |name| => if Kept(name[i]) then name[i] else '.')
  }

  /** By their codes in ASCII: + - . _, the digits, the capitals and the small letters. */
  lemma KeptAre(c: char)
    ensures var n := c as int;
            Kept(c) <==> n in {43, 45, 46, 95} || 48 <= n < 48 + 10 || 65 <= n < 65 + 26 || 97 <= n < 97 + 26
  {
    assert c == c as int as char;
  }

  /** Naming a stored name changes nothing, so names are compared as GitHub lists them. */
  lemma StoredNameIdempotent(name: Name)
    ensures StoredName(StoredName(name)) == StoredName(name)
  {
    var r := StoredName(name);
    assert forall i | 0 <= i < |r| :: Kept(r[i]);
  }

  datatype Naming = Named(files: map<Name, Name>) | Clash(first: Name, second: Name)

  /** named: the files under their stored names; two that would be stored under one are an error. */
  method NameFiles(debs: seq<Name>) returns (r: Naming)
    ensures r.Named? <==> forall i, j | 0 <= i < j < |debs| :: StoredName(debs[i]) != StoredName(debs[j])
    ensures r.Named? ==> r.files.Keys == set i | 0 <= i < |debs| :: StoredName(debs[i])
    ensures r.Named? ==>
              forall i | 0 <= i < |debs| :: StoredName(debs[i]) in r.files && r.files[StoredName(debs[i])] == debs[i]
    ensures r.Clash? ==>
              exists i, j ::
                0 <= i < j < |debs| && r == Clash(debs[i], debs[j]) && StoredName(debs[i]) == StoredName(debs[j])
  {
    hide StoredName;
    var out: map<Name, Name> := map[];
    for k := 0 to |debs|
      invariant forall i, j | 0 <= i < j < k :: StoredName(debs[i]) != StoredName(debs[j])
      invariant out.Keys == set i | 0 <= i < k :: StoredName(debs[i])
      invariant forall i | 0 <= i < k :: StoredName(debs[i]) in out && out[StoredName(debs[i])] == debs[i]
    {
      var name := StoredName(debs[k]);
      if name in out {
        var i :| 0 <= i < k && StoredName(debs[i]) == name;
        return Clash(debs[i], debs[k]);
      }
      out := out[name := debs[k]];
    }
    return Named(out);
  }

  // ---- the repository and the runs ----

  /** A name on a release. */
  datatype Copy = Copy(name: Name, on: Rank)

  /** Where a run is: its next call of gh. */
  datatype Phase = Listing | Checking | Uploading | Rechecking | Confirming | Deleting | Done | Failed

  /** A run of publish: its release, the names it has still to do (the current one first), and those it will return. */
  datatype Run = Run(tag: Rank, files: seq<Name>, todo: seq<Name>, phase: Phase, kept: seq<Name>)

  /** The assets there are and ever were; and, of those there are, when each was uploaded and when its run's check left
      it in place. Times count steps. */
  datatype State = State(
    runs: seq<Run>,
    assets: set<Copy>, ever: set<Copy>,
    uploaded: map<Copy, int>, settled: map<Copy, int>,
    first: map<Copy, int>, checked: map<Copy, int>,  // of those there ever were: first uploaded, and last checked
    unchecked: set<Copy>,  // left without their run's verdict: gh said the upload failed, or the run failed after it
    clock: int
  )

  ghost predicate Carried(s: State, name: Name) { exists r: Rank :: Copy(name, r) in s.assets }

  /** Whether `published` lists a name. */
  predicate Listed(s: State, name: Name) { exists c | c in s.assets :: c.name == name }

  /** The oldest release carriers() lists. */
  ghost predicate OldestCarrier(s: State, name: Name, r: Rank) {
    Copy(name, r) in s.assets && forall r': Rank | Copy(name, r') in s.assets :: r <= r'
  }

  function Without(names: seq<Name>, s: State): seq<Name> {
    if names == [] then []
    else if Listed(s, names[0]) then Without(names[1..], s) else [names[0]] + Without(names[1..], s)
  }

  /** The run, done with its current name. */
  function Onward(r: Run): Run
    requires r.todo != []
  {
    r.(todo := r.todo[1..], phase := Checking)
  }

  predicate InFlight(r: Run) { (r.phase.Confirming? || r.phase.Deleting?) && r.todo != [] }

  function Current(r: Run): Copy
    requires r.todo != []
  {
    Copy(r.todo[0], r.tag)
  }

  function SetRun(s: State, i: nat, r: Run): State
    requires i < |s.runs|
  {
    s.(runs := s.runs[i := r], clock := s.clock + 1)
  }

  /** One call of gh by run i, with what publish does before its next. */
  ghost predicate RunStep(s: State, t: State, i: nat)
    requires i < |s.runs|
  {
    var r := s.runs[i];
    match r.phase
    case Listing => t == SetRun(s, i, r.(todo := Without(r.files, s), phase := Checking))
    case Checking =>
      if r.todo == [] then t == SetRun(s, i, r.(phase := Done))
      else t == SetRun(s, i, if Listed(s, r.todo[0]) then Onward(r) else r.(phase := Uploading))
    case Uploading =>
      r.todo != [] &&
      ((Current(r) !in s.assets && t == Uploaded(s, i))
       || (Current(r) !in s.assets && t == Stored(s, i))
       || t == SetRun(s, i, r.(phase := Rechecking)))  // gh refuses a name the release has, or fails
    case Rechecking =>
      r.todo != [] && t == SetRun(s, i, if Listed(s, r.todo[0]) then Onward(r) else r.(phase := Failed))
    case Confirming =>
      r.todo != [] &&
      if !Listed(s, r.todo[0]) then t == SetRun(s, i, r.(phase := Failed))
      else if OldestCarrier(s, r.todo[0], r.tag) then t == Settled(s, i)
      else t == Condemned(s, i)
    case Deleting => r.todo != [] && (t == Deleted(s, i) || t == Gone(s, i))
    case Done => false
    case Failed => false
  }

  function Uploaded(s: State, i: nat): State
    requires i < |s.runs| && s.runs[i].todo != []
  {
    var r := s.runs[i];
    var c := Current(r);
    SetRun(s, i, r.(phase := Confirming))
      .(assets := s.assets + {c}, ever := s.ever + {c}, uploaded := s.uploaded[c := s.clock],
        settled := s.settled - {c}, first := if c in s.first then s.first else s.first[c := s.clock])
  }

  /** gh fails, but the asset is stored. */
  function Stored(s: State, i: nat): State
    requires i < |s.runs| && s.runs[i].todo != []
  {
    var c := Current(s.runs[i]);
    Uploaded(s, i).(runs := s.runs[i := s.runs[i].(phase := Rechecking)], unchecked := s.unchecked + {c})
  }

  function Settled(s: State, i: nat): State
    requires i < |s.runs| && s.runs[i].todo != []
  {
    var r := s.runs[i];
    SetRun(s, i, Onward(r).(kept := r.kept + [r.todo[0]]))
      .(settled := s.settled[Current(r) := s.clock], checked := s.checked[Current(r) := s.clock])
  }

  /** Checked, and not on the oldest release: to be deleted. */
  function Condemned(s: State, i: nat): State
    requires i < |s.runs| && s.runs[i].todo != []
  {
    var r := s.runs[i];
    SetRun(s, i, r.(phase := Deleting)).(checked := s.checked[Current(r) := s.clock])
  }

  function Deleted(s: State, i: nat): State
    requires i < |s.runs| && s.runs[i].todo != []
  {
    var r := s.runs[i];
    SetRun(s, i, Onward(r)).(assets := s.assets - {Current(r)}, settled := s.settled - {Current(r)})
  }

  /** gh fails, but the asset is deleted. */
  function Gone(s: State, i: nat): State
    requires i < |s.runs| && s.runs[i].todo != []
  {
    Deleted(s, i).(runs := s.runs[i := s.runs[i].(phase := Failed)])
  }

  /** A run may fail at any call, leaving what it uploaded. */
  function Fails(s: State, i: nat): State
    requires i < |s.runs|
  {
    var r := s.runs[i];
    SetRun(s, i, r.(phase := Failed)).(unchecked := if InFlight(r) then s.unchecked + {Current(r)} else s.unchecked)
  }

  ghost predicate Next(s: State, t: State) {
    exists i: nat :: i < |s.runs| && (RunStep(s, t, i) || (!Over(s.runs[i]) && t == Fails(s, i)))
  }

  predicate Over(r: Run) { r.phase.Done? || r.phase.Failed? }

  /** At first no run has started, and what there is was left by earlier runs, however they ended. */
  ghost predicate Init(s: State) {
    && (forall i | 0 <= i < |s.runs| :: s.runs[i].phase.Listing? && s.runs[i].kept == [])
    && s.ever == s.assets && s.unchecked == s.assets - s.settled.Keys && Books(s)
    && s.first.Keys == s.ever && (forall c | c in s.ever :: s.first[c] == s.uploaded[c])
    && (forall c | c in s.settled :: c in s.checked && s.checked[c] == s.settled[c]) && OlderIsLater(s)
  }

  /** A run of the whole system. */
  ghost predicate Behaviour(b: seq<State>) {
    b != [] && Init(b[0]) && forall k | 0 <= k < |b| - 1 :: Next(b[k], b[k + 1])
  }

  // ---- the invariant ----

  ghost predicate Books(s: State) {
    && s.assets <= s.ever && s.settled.Keys <= s.assets && s.assets <= s.uploaded.Keys
    && (forall c | c in s.assets :: s.uploaded[c] < s.clock)
    && (forall c | c in s.settled :: s.uploaded[c] < s.settled[c] < s.clock)
  }

  predicate NeedsName(p: Phase) { p.Uploading? || p.Rechecking? || p.Confirming? || p.Deleting? }

  ghost predicate HasNames(s: State) {
    forall i | 0 <= i < |s.runs| :: NeedsName(s.runs[i].phase) ==> s.runs[i].todo != []
  }

  /** A copy between its upload and its run's verdict is there, is not settled, and is that run's alone. */
  ghost predicate Owned(s: State) {
    && (forall i | 0 <= i < |s.runs| && InFlight(s.runs[i]) ::
          Current(s.runs[i]) in s.assets && Current(s.runs[i]) !in s.settled)
    && (forall i, j | 0 <= i < |s.runs| && 0 <= j < |s.runs| && InFlight(s.runs[i]) && InFlight(s.runs[j]) && i != j ::
          Current(s.runs[i]) != Current(s.runs[j]))
  }

  /** Every copy is settled, in flight, or left unchecked. */
  ghost predicate Accounted(s: State) {
    forall c | c in s.assets :: c in s.settled || c in s.unchecked || HasOwner(s, c)
  }

  ghost predicate HasOwner(s: State, c: Copy) {
    exists i :: 0 <= i < |s.runs| && InFlight(s.runs[i]) && Current(s.runs[i]) == c
  }

  ghost predicate OlderEver(s: State, c: Copy) { exists e :: e in s.ever && e.name == c.name && e.on < c.on }

  /** A pending deletion implies the name was on an older release. */
  ghost predicate DeletionsSafe(s: State) {
    forall i | 0 <= i < |s.runs| && s.runs[i].phase.Deleting? && s.runs[i].todo != [] ::
      OlderEver(s, Current(s.runs[i]))
  }

  ghost predicate NoNewer(s: State, c: Copy) { exists d :: d in s.assets && d.name == c.name && d.on <= c.on }

  /** Wherever a name ever was, it still is, or is on an older release. */
  ghost predicate KeptOldest(s: State) { forall c | c in s.ever :: NoNewer(s, c) }

  /** An older copy beside a settled one was uploaded after the check that settled it. */
  ghost predicate OlderIsLater(s: State) {
    && s.settled.Keys <= s.assets <= s.uploaded.Keys
    && forall c, d | c in s.assets && d in s.settled && c.name == d.name && c.on < d.on :: s.uploaded[c] > s.settled[d]
  }

  /** What a run returns is on its release, settled. */
  ghost predicate ReturnsKept(s: State) {
    forall i, k | 0 <= i < |s.runs| && 0 <= k < |s.runs[i].kept| :: Copy(s.runs[i].kept[k], s.runs[i].tag) in s.settled
  }

  ghost predicate Inv(s: State) {
    && Books(s) && HasNames(s) && Owned(s) && Accounted(s) && DeletionsSafe(s) && KeptOldest(s) && OlderIsLater(s)
    && ReturnsKept(s)
  }

  lemma InitInv(s: State)
    requires Init(s)
    ensures Inv(s)
  {
    forall c | c in s.ever ensures NoNewer(s, c) {
      assert c in s.assets;
    }
  }

  /** The copy a run leaves unchecked by no longer having it in flight. */
  function LeftBy(was: Run, now: Run): set<Copy> {
    if InFlight(was) && !InFlight(now) then {Current(was)} else {}
  }

  /** A step of run i: what each kind does, and nothing else. */
  datatype Kind = Moves | Uploads | Stores | Settles | Condemns | Deletes

  ghost predicate Does(s: State, t: State, i: nat, kind: Kind)
    requires i < |s.runs|
  {
    && |t.runs| == |s.runs| && t.clock == s.clock + 1 && !Over(s.runs[i])
    && s.unchecked <= t.unchecked
    && t.runs[i].tag == s.runs[i].tag
    && (forall j | 0 <= j < |s.runs| && j != i :: t.runs[j] == s.runs[j])
    && match kind
       case Moves =>
         && t.assets == s.assets && t.ever == s.ever && t.uploaded == s.uploaded && t.settled == s.settled
         && t.runs[i].kept == s.runs[i].kept
         && (NeedsName(t.runs[i].phase) ==> t.runs[i].todo != [])
         && (InFlight(t.runs[i]) ==> InFlight(s.runs[i]) && Current(t.runs[i]) == Current(s.runs[i]))
         && t.unchecked == s.unchecked + LeftBy(s.runs[i], t.runs[i])
         && !t.runs[i].phase.Deleting? && t.first == s.first && t.checked == s.checked
       case Uploads =>
         s.runs[i].todo != [] && Current(s.runs[i]) !in s.assets && !InFlight(s.runs[i]) && t == Uploaded(s, i)
       case Stores =>
         s.runs[i].todo != [] && Current(s.runs[i]) !in s.assets && !InFlight(s.runs[i]) && t == Stored(s, i)
       case Settles =>
         && s.runs[i].todo != [] && s.runs[i].phase.Confirming? && OldestCarrier(s, s.runs[i].todo[0], s.runs[i].tag)
         && t == Settled(s, i)
       case Condemns =>
         && s.runs[i].todo != [] && s.runs[i].phase.Confirming? && !OldestCarrier(s, s.runs[i].todo[0], s.runs[i].tag)
         && t == Condemned(s, i)
       case Deletes =>
         s.runs[i].todo != [] && s.runs[i].phase.Deleting? && (t == Deleted(s, i) || t == Gone(s, i))
  }

  /** A step that only changes where a run is that has no copy in flight. */
  lemma MoveKind(s: State, t: State, i: nat, r: Run)
    requires i < |s.runs| && !Over(s.runs[i]) && !InFlight(s.runs[i]) && t == SetRun(s, i, r)
    requires r.tag == s.runs[i].tag && r.kept == s.runs[i].kept && (NeedsName(r.phase) ==> r.todo != [])
    requires !InFlight(r) && !r.phase.Deleting?
    ensures Does(s, t, i, Moves)
  {
    hide OldestCarrier;
  }

  lemma UploadKind(s: State, t: State, i: nat) returns (kind: Kind)
    requires HasNames(s) && i < |s.runs| && s.runs[i].phase.Uploading? && RunStep(s, t, i)
    ensures Does(s, t, i, kind)
  {
    hide OldestCarrier, Listed, HasNames;
    var r := s.runs[i];
    if Current(r) !in s.assets && t == Uploaded(s, i) {
      kind := Uploads;
    } else if Current(r) !in s.assets && t == Stored(s, i) {
      kind := Stores;
    } else {
      kind := Moves;
      MoveKind(s, t, i, r.(phase := Rechecking));
    }
  }

  lemma ConfirmKind(s: State, t: State, i: nat) returns (kind: Kind)
    requires HasNames(s) && Owned(s) && i < |s.runs| && s.runs[i].phase.Confirming? && RunStep(s, t, i)
    ensures Does(s, t, i, kind)
  {
    hide OldestCarrier;
    var r := s.runs[i];
    assert Current(r) in s.assets;
    assert Listed(s, r.todo[0]);
    kind := if OldestCarrier(s, r.todo[0], r.tag) then Settles else Condemns;
  }

  /** What a run listing, checking or checking again does next. */
  function AfterListing(s: State, r: Run): Run
    requires (r.phase.Rechecking? ==> r.todo != [])
  {
    match r.phase
    case Listing => r.(todo := Without(r.files, s), phase := Checking)
    case Rechecking => if Listed(s, r.todo[0]) then Onward(r) else r.(phase := Failed)
    case _ =>
      if r.todo == [] then r.(phase := Done) else if Listed(s, r.todo[0]) then Onward(r) else r.(phase := Uploading)
  }

  lemma OtherKind(s: State, t: State, i: nat) returns (kind: Kind)
    requires HasNames(s) && i < |s.runs| && !s.runs[i].phase.Uploading? && !s.runs[i].phase.Confirming?
    requires RunStep(s, t, i)
    ensures Does(s, t, i, kind)
  {
    hide OldestCarrier, Listed, Without, Does;
    var r := s.runs[i];
    if r.phase.Deleting? {
      kind := Deletes;
      DeleteKind(s, t, i);
    } else {
      kind := Moves;
      MoveKind(s, t, i, AfterListing(s, r));
    }
  }

  lemma DeleteKind(s: State, t: State, i: nat)
    requires i < |s.runs| && s.runs[i].phase.Deleting? && RunStep(s, t, i)
    ensures Does(s, t, i, Deletes)
  {
    hide OldestCarrier;
  }

  lemma FailKind(s: State, t: State, i: nat)
    requires i < |s.runs| && !Over(s.runs[i]) && t == Fails(s, i)
    ensures Does(s, t, i, Moves)
  {
    hide OldestCarrier;
  }

  lemma StepKinds(s: State, t: State) returns (i: nat, kind: Kind)
    requires Inv(s) && Next(s, t)
    ensures i < |s.runs| && Does(s, t, i, kind)
  {
    hide Inv, Does, RunStep, Fails;
    i :| i < |s.runs| && (RunStep(s, t, i) || (!Over(s.runs[i]) && t == Fails(s, i)));
    kind := KindOf(s, t, i);
  }

  lemma KindOf(s: State, t: State, i: nat) returns (kind: Kind)
    requires Inv(s) && i < |s.runs| && (RunStep(s, t, i) || (!Over(s.runs[i]) && t == Fails(s, i)))
    ensures Does(s, t, i, kind)
  {
    hide Does, RunStep, Fails;
    if !Over(s.runs[i]) && t == Fails(s, i) {
      FailKind(s, t, i);
      kind := Moves;
    } else if s.runs[i].phase.Uploading? {
      kind := UploadKind(s, t, i);
    } else if s.runs[i].phase.Confirming? {
      kind := ConfirmKind(s, t, i);
    } else {
      kind := OtherKind(s, t, i);
    }
  }

  lemma KeepsBooks(s: State, t: State, i: nat, kind: Kind)
    requires Inv(s) && i < |s.runs| && Does(s, t, i, kind)
    ensures Books(t) && HasNames(t)
  {
    hide Accounted, DeletionsSafe, KeptOldest, OlderIsLater, ReturnsKept, OldestCarrier;
  }

  lemma KeepsOwned(s: State, t: State, i: nat, kind: Kind)
    requires Inv(s) && i < |s.runs| && Does(s, t, i, kind)
    ensures Owned(t)
  {
    hide Accounted, DeletionsSafe, KeptOldest, OlderIsLater, ReturnsKept, OldestCarrier, HasNames;
    forall j | 0 <= j < |t.runs| && InFlight(t.runs[j])
      ensures Current(t.runs[j]) in t.assets && Current(t.runs[j]) !in t.settled
    {
      if j != i {
        assert InFlight(s.runs[j]);
      }
    }
  }

  lemma KeepsAccounted(s: State, t: State, i: nat, kind: Kind)
    requires Inv(s) && i < |s.runs| && Does(s, t, i, kind)
    ensures Accounted(t)
  {
    hide DeletionsSafe, KeptOldest, OlderIsLater, ReturnsKept, OldestCarrier, HasNames;
    forall c | c in t.assets ensures c in t.settled || c in t.unchecked || HasOwner(t, c) {
      if c in s.assets && HasOwner(s, c) {
        var j :| 0 <= j < |s.runs| && InFlight(s.runs[j]) && Current(s.runs[j]) == c;
        if j != i {
          assert InFlight(t.runs[j]) && Current(t.runs[j]) == c;
        } else if kind.Moves? && InFlight(t.runs[i]) {
          assert Current(t.runs[i]) == c;
        }
      } else if c !in s.assets && kind.Uploads? {
        assert InFlight(t.runs[i]) && Current(t.runs[i]) == c;
      }
    }
  }

  lemma OlderEverStays(s: State, t: State, c: Copy)
    requires OlderEver(s, c) && s.ever <= t.ever
    ensures OlderEver(t, c)
  {
    var e :| e in s.ever && e.name == c.name && e.on < c.on;
    assert e in t.ever;
  }

  lemma KeepsDeletionsSafe(s: State, t: State, i: nat, kind: Kind)
    requires Inv(s) && i < |s.runs| && Does(s, t, i, kind)
    ensures DeletionsSafe(t)
  {
    hide Accounted, KeptOldest, OlderIsLater, ReturnsKept, OldestCarrier, HasNames, OlderEver;
    forall j | 0 <= j < |t.runs| && t.runs[j].phase.Deleting? && t.runs[j].todo != []
      ensures OlderEver(t, Current(t.runs[j]))
    {
      var c := Current(t.runs[j]);
      if j == i {
        NotOldestHasOlder(s, c);
      }
      OlderEverStays(s, t, c);
    }
  }

  lemma NotOldestHasOlder(s: State, c: Copy)
    requires c in s.assets && !OldestCarrier(s, c.name, c.on) && s.assets <= s.ever
    ensures OlderEver(s, c)
  {
    var r: Rank :| Copy(c.name, r) in s.assets && r < c.on;
    assert Copy(c.name, r) in s.ever;
  }

  lemma KeepsKeptOldest(s: State, t: State, i: nat, kind: Kind)
    requires Inv(s) && i < |s.runs| && Does(s, t, i, kind)
    ensures KeptOldest(t)
  {
    hide Accounted, OlderIsLater, ReturnsKept, OldestCarrier, HasNames, Owned, Books, OlderEver, NoNewer;
    forall c | c in t.ever ensures NoNewer(t, c) {
      if c in s.ever {
        if kind.Deletes? {
          SurvivesDeletion(s, t, Current(s.runs[i]), c);
        } else {
          NoNewerStays(s, t, c);
        }
      } else {
        ItselfNoNewer(t, c);
      }
    }
  }

  lemma ItselfNoNewer(t: State, c: Copy)
    requires c in t.assets
    ensures NoNewer(t, c)
  {}

  lemma NoNewerStays(s: State, t: State, c: Copy)
    requires NoNewer(s, c) && s.assets <= t.assets
    ensures NoNewer(t, c)
  {
    var d :| d in s.assets && d.name == c.name && d.on <= c.on;
    assert d in t.assets;
  }

  /** Deleting a copy some release older than which had the name leaves every name as old as it was. */
  lemma SurvivesDeletion(s: State, t: State, gone: Copy, c: Copy)
    requires KeptOldest(s) && OlderEver(s, gone) && t.assets == s.assets - {gone} && c in s.ever
    ensures NoNewer(t, c)
  {
    assert NoNewer(s, c);
    var d :| d in s.assets && d.name == c.name && d.on <= c.on;
    if d == gone {
      var e :| e in s.ever && e.name == gone.name && e.on < gone.on;
      assert NoNewer(s, e);
      var w :| w in s.assets && w.name == e.name && w.on <= e.on;
      assert w in t.assets && w.on <= c.on;
    } else {
      assert d in t.assets;
    }
  }

  lemma KeepsOlderIsLater(s: State, t: State, i: nat, kind: Kind)
    requires Inv(s) && i < |s.runs| && Does(s, t, i, kind)
    ensures OlderIsLater(t)
  {
    hide Accounted, DeletionsSafe, KeptOldest, ReturnsKept, HasNames, Owned;
    KeepsBooks(s, t, i, kind);
    forall c, d | c in t.assets && d in t.settled && c.name == d.name && c.on < d.on
      ensures t.uploaded[c] > t.settled[d]
    {
      if kind.Settles? && d == Current(s.runs[i]) {
        NoneOlder(s, d.name, d.on, c);
      }
    }
  }

  lemma NoneOlder(s: State, name: Name, r: Rank, c: Copy)
    requires OldestCarrier(s, name, r) && c in s.assets && c.name == name
    ensures r <= c.on
  {
    assert Copy(c.name, c.on) in s.assets;
  }

  lemma KeepsReturns(s: State, t: State, i: nat, kind: Kind)
    requires Inv(s) && i < |s.runs| && Does(s, t, i, kind)
    ensures ReturnsKept(t)
  {
    hide Accounted, DeletionsSafe, KeptOldest, OlderIsLater, HasNames, OldestCarrier;
    forall j, k | 0 <= j < |t.runs| && 0 <= k < |t.runs[j].kept|
      ensures Copy(t.runs[j].kept[k], t.runs[j].tag) in t.settled
    {
      if j != i || k < |s.runs[i].kept| {
        assert Copy(s.runs[j].kept[k], s.runs[j].tag) in s.settled;
      }
    }
  }

  lemma NextKeepsInv(s: State, t: State)
    requires Inv(s) && Next(s, t)
    ensures Inv(t)
  {
    hide *;
    var i, kind := StepKinds(s, t);
    KeepsBooks(s, t, i, kind);
    KeepsOwned(s, t, i, kind);
    KeepsAccounted(s, t, i, kind);
    KeepsDeletionsSafe(s, t, i, kind);
    KeepsKeptOldest(s, t, i, kind);
    KeepsOlderIsLater(s, t, i, kind);
    KeepsReturns(s, t, i, kind);
    AllKept(t);
  }

  lemma AllKept(t: State)
    requires Books(t) && HasNames(t) && Owned(t) && Accounted(t) && DeletionsSafe(t)
    requires KeptOldest(t) && OlderIsLater(t)
    requires ReturnsKept(t)
    ensures Inv(t)
  {}

  // ---- over every behaviour ----

  lemma {:induction false} Always(b: seq<State>, k: nat)
    requires Behaviour(b) && k < |b|
    ensures Inv(b[k])
  {
    hide Inv, Next, Init;
    if k == 0 {
      InitInv(b[0]);
    } else {
      Always(b, k - 1);
      assert Next(b[k - 1], b[k - 1 + 1]);
      NextKeepsInv(b[k - 1], b[k]);
    }
  }

  /** A pending deletion has an older copy to leave behind. */
  lemma DeletionLeavesOlder(b: seq<State>, k: nat, i: nat)
    requires Behaviour(b) && k < |b| && i < |b[k].runs| && b[k].runs[i].phase.Deleting?
    ensures b[k].runs[i].todo != []
    ensures exists c :: c in b[k].assets && c.name == b[k].runs[i].todo[0] && c.on < b[k].runs[i].tag
  {
    hide Behaviour, Books, Owned, Accounted, OlderIsLater, ReturnsKept;
    Always(b, k);
    var s := b[k];
    var e :| e in s.ever && e.name == s.runs[i].todo[0] && e.on < s.runs[i].tag;
    assert NoNewer(s, e);
  }

  /** The oldest release that ever carried a name carries it at every moment since. */
  lemma OldestEverKeepsIt(b: seq<State>, k: nat, c: Copy)
    requires Behaviour(b) && k < |b| && c in b[k].ever
    requires forall e | e in b[k].ever && e.name == c.name :: c.on <= e.on
    ensures c in b[k].assets
  {
    hide Behaviour, Owned, Accounted, OlderIsLater, ReturnsKept, DeletionsSafe;
    Always(b, k);
    assert NoNewer(b[k], c);
    var d :| d in b[k].assets && d.name == c.name && d.on <= c.on;
    assert d in b[k].ever;
    assert d == c;
  }

  lemma {:induction false} EverGrows(b: seq<State>, j: nat, k: nat)
    requires Behaviour(b) && j <= k < |b|
    ensures b[j].ever <= b[k].ever
    decreases k
  {
    hide Inv, Next, Init;
    if j < k {
      EverGrows(b, j, k - 1);
      Always(b, k - 1);
      assert Next(b[k - 1], b[k - 1 + 1]);
      var i, kind := StepKinds(b[k - 1], b[k]);
    }
  }

  /** A name once carried is carried for ever. */
  lemma CarriedForEver(b: seq<State>, j: nat, k: nat, name: Name)
    requires Behaviour(b) && j <= k < |b| && Carried(b[j], name)
    ensures Carried(b[k], name)
  {
    hide Behaviour, Inv;
    EverGrows(b, j, k);
    Always(b, j);
    Always(b, k);
    var r: Rank :| Copy(name, r) in b[j].assets;
    AssetsWereEver(b[j]);
    EverIsCarried(b[k], Copy(name, r));
  }

  lemma AssetsWereEver(s: State)
    requires Inv(s)
    ensures s.assets <= s.ever
  {}

  lemma EverIsCarried(s: State, c: Copy)
    requires Inv(s) && c in s.ever
    ensures Carried(s, c.name)
  {
    hide Books, Owned, Accounted, OlderIsLater, ReturnsKept, DeletionsSafe, HasNames;
    assert NoNewer(s, c);
    var d :| d in s.assets && d.name == c.name && d.on <= c.on;
    assert Copy(c.name, d.on) == d;
  }

  /** A copy its run's check left in place stays, and is never replaced. */
  lemma {:induction false} SettledStays(b: seq<State>, j: nat, k: nat, c: Copy)
    requires Behaviour(b) && j <= k < |b| && c in b[j].settled
    ensures c in b[j].uploaded && c in b[k].settled && c in b[k].assets && c in b[k].uploaded
    ensures b[k].uploaded[c] == b[j].uploaded[c] && b[k].settled[c] == b[j].settled[c]
    decreases k
  {
    hide Inv, Next, Init;
    if j == k {
      SettledIsThere(b, j, c);
    } else {
      SettledStays(b, j, k - 1, c);
      Always(b, k - 1);
      assert Next(b[k - 1], b[k - 1 + 1]);
      var i, kind := StepKinds(b[k - 1], b[k]);
      SettledKept(b[k - 1], b[k], i, kind, c);
    }
  }

  lemma SettledIsThere(b: seq<State>, j: nat, c: Copy)
    requires Behaviour(b) && j < |b| && c in b[j].settled
    ensures c in b[j].assets && c in b[j].uploaded
  {
    hide Behaviour;
    Always(b, j);
  }

  lemma SettledKept(s: State, t: State, i: nat, kind: Kind, c: Copy)
    requires Inv(s) && i < |s.runs| && Does(s, t, i, kind) && c in s.settled
    ensures c in s.uploaded && c in t.settled && c in t.assets && c in t.uploaded
    ensures t.uploaded[c] == s.uploaded[c] && t.settled[c] == s.settled[c]
  {
    hide Accounted, DeletionsSafe, KeptOldest, OlderIsLater, HasNames, OldestCarrier, ReturnsKept;
  }

  /** What a run returns is kept: it is on its release from then on. */
  lemma ReturnedStays(b: seq<State>, j: nat, k: nat, i: nat, m: nat)
    requires Behaviour(b) && j <= k < |b| && i < |b[j].runs| && m < |b[j].runs[i].kept|
    ensures Copy(b[j].runs[i].kept[m], b[j].runs[i].tag) in b[k].assets
  {
    hide Behaviour, Books, Owned, Accounted, OlderIsLater, DeletionsSafe, HasNames, KeptOldest;
    Always(b, j);
    SettledStays(b, j, k, Copy(b[j].runs[i].kept[m], b[j].runs[i].tag));
  }

  // ---- what a run does with its files ----

  predicate EverHad(s: State, name: Name) { exists c | c in s.ever :: c.name == name }

  /** A run that has listed and not failed has of its files still to do what no release ever had. */
  predicate FilesSeen(s: State, r: Run) {
    && (!r.phase.Listing? && !r.phase.Failed? ==> forall n | n in r.files :: n in r.todo || EverHad(s, n))
    && (r.phase.Done? ==> r.todo == [])
  }

  predicate AllSeen(s: State) { forall i | 0 <= i < |s.runs| :: FilesSeen(s, s.runs[i]) }

  lemma {:induction false} NotListedAreLeft(names: seq<Name>, s: State)
    ensures forall n | n in names :: n in Without(names, s) || Listed(s, n)
  {
    hide Listed;
    if names != [] {
      NotListedAreLeft(names[1..], s);
    }
  }

  lemma ListedWasHad(s: State, name: Name)
    requires s.assets <= s.ever && Listed(s, name)
    ensures EverHad(s, name)
  {
    var c :| c in s.assets && c.name == name;
    assert c in s.ever;
  }

  lemma HadForEver(s: State, t: State, name: Name)
    requires s.ever <= t.ever && EverHad(s, name)
    ensures EverHad(t, name)
  {
    var c :| c in s.ever && c.name == name;
    assert c in t.ever;
  }

  /** Going on to the next name is right once the current one was had. */
  lemma OnwardSeen(s: State, r: Run)
    requires NeedsName(r.phase) || r.phase.Checking?
    requires FilesSeen(s, r) && r.todo != [] && EverHad(s, r.todo[0])
    ensures FilesSeen(s, Onward(r))
  {
    hide EverHad;
    forall n | n in r.files ensures n in r.todo[1..] || EverHad(s, n) {
      assert n in r.todo ==> n == r.todo[0] || n in r.todo[1..];
    }
  }

  /** What run i of t is, seen by s. */
  lemma StepSeen(s: State, t: State, i: nat)
    requires Inv(s) && i < |s.runs| && FilesSeen(s, s.runs[i]) && RunStep(s, t, i)
    ensures i < |t.runs| && FilesSeen(s, t.runs[i])
  {
    hide Listed, Without, EverHad, Owned, Accounted, DeletionsSafe, KeptOldest, OlderIsLater, ReturnsKept,
         OldestCarrier,
         Onward, FilesSeen;
    var r := s.runs[i];
    if r.phase.Listing? {
      NotListedAreLeft(r.files, s);
      ListingSeen(s, r);
    } else if r.phase.Checking? && r.todo == [] {
      DoneSeen(s, r);
    } else if r.phase.Confirming? || r.phase.Deleting? {
      VerdictSeen(s, t, i);
    } else {
      PhaseSeen(s, r);
      if Listed(s, r.todo[0]) {
        ListedWasHad(s, r.todo[0]);
        OnwardSeen(s, r);
      }
    }
  }

  lemma ListingSeen(s: State, r: Run)
    requires s.assets <= s.ever && r.phase.Listing?
    ensures FilesSeen(s, r.(todo := Without(r.files, s), phase := Checking))
  {
    hide Listed, Without, EverHad;
    NotListedAreLeft(r.files, s);
    forall n | n in r.files ensures n in Without(r.files, s) || EverHad(s, n) {
      if Listed(s, n) {
        ListedWasHad(s, n);
      }
    }
  }

  lemma DoneSeen(s: State, r: Run)
    requires FilesSeen(s, r) && r.phase.Checking? && r.todo == []
    ensures FilesSeen(s, r.(phase := Done))
  {}

  /** The next call for the same name. */
  lemma PhaseSeen(s: State, r: Run)
    requires FilesSeen(s, r) && !r.phase.Listing? && !Over(r)
    ensures FilesSeen(s, r.(phase := Uploading)) && FilesSeen(s, r.(phase := Rechecking))
    ensures FilesSeen(s, r.(phase := Confirming)) && FilesSeen(s, r.(phase := Deleting))
    ensures FilesSeen(s, r.(phase := Failed))
  {}

  /** A copy with a verdict was uploaded. */
  lemma VerdictSeen(s: State, t: State, i: nat)
    requires Inv(s) && i < |s.runs| && FilesSeen(s, s.runs[i]) && RunStep(s, t, i)
    requires s.runs[i].phase.Confirming? || s.runs[i].phase.Deleting?
    ensures i < |t.runs| && FilesSeen(s, t.runs[i])
  {
    hide Listed, EverHad, Accounted, DeletionsSafe, KeptOldest, OlderIsLater, ReturnsKept, OldestCarrier, FilesSeen,
         Onward;
    var r := s.runs[i];
    assert InFlight(r) && Current(r) in s.ever;
    assert EverHad(s, r.todo[0]) by { HadByCopy(s, Current(r)); }
    PhaseSeen(s, r);
    OnwardSeen(s, r);
    KeptNotSeen(s, Onward(r), r.kept + [r.todo[0]]);
  }

  lemma HadByCopy(s: State, c: Copy)
    requires c in s.ever
    ensures EverHad(s, c.name)
  {}

  lemma KeptNotSeen(s: State, r: Run, kept: seq<Name>)
    requires FilesSeen(s, r)
    ensures FilesSeen(s, r.(kept := kept))
  {}

  lemma NextSeen(s: State, t: State)
    requires Inv(s) && AllSeen(s) && Next(s, t)
    ensures AllSeen(t)
  {
    hide Inv, RunStep, Does, FilesSeen;
    var i: nat :| i < |s.runs| && (RunStep(s, t, i) || (!Over(s.runs[i]) && t == Fails(s, i)));
    if RunStep(s, t, i) {
      StepSeen(s, t, i);
    } else {
      FailedSeen(s, s.runs[i]);
    }
    forall j | 0 <= j < |t.runs| ensures FilesSeen(t, t.runs[j]) {
      OnlyThatRun(s, t, i, j);
      SeenStays(s, t, t.runs[j]);
    }
  }

  lemma FailedSeen(s: State, r: Run)
    ensures FilesSeen(s, r.(phase := Failed))
  {}

  lemma OnlyThatRun(s: State, t: State, i: nat, j: nat)
    requires Inv(s) && i < |s.runs| && (RunStep(s, t, i) || (!Over(s.runs[i]) && t == Fails(s, i)))
    ensures |t.runs| == |s.runs| && s.ever <= t.ever && (j < |s.runs| && j != i ==> t.runs[j] == s.runs[j])
  {
    hide Inv, RunStep, Fails, Does;
    var kind := KindOf(s, t, i);
    DoesOneRun(s, t, i, kind);
  }

  lemma DoesOneRun(s: State, t: State, i: nat, kind: Kind)
    requires i < |s.runs| && Does(s, t, i, kind)
    ensures |t.runs| == |s.runs| && s.ever <= t.ever && forall j | 0 <= j < |s.runs| && j != i :: t.runs[j] == s.runs[j]
  {
    hide OldestCarrier;
  }

  lemma SeenStays(s: State, t: State, r: Run)
    requires FilesSeen(s, r) && s.ever <= t.ever
    ensures FilesSeen(t, r)
  {
    hide EverHad;
    if !r.phase.Listing? && !r.phase.Failed? {
      forall n | n in r.files ensures n in r.todo || EverHad(t, n) {
        if EverHad(s, n) {
          HadForEver(s, t, n);
        }
      }
    }
  }

  lemma {:induction false} AlwaysSeen(b: seq<State>, k: nat)
    requires Behaviour(b) && k < |b|
    ensures AllSeen(b[k])
  {
    hide Inv, Next, FilesSeen;
    if k == 0 {
      forall i | 0 <= i < |b[0].runs| ensures FilesSeen(b[0], b[0].runs[i]) {
        NotBegunSeen(b[0], b[0].runs[i]);
      }
    } else {
      AlwaysSeen(b, k - 1);
      Always(b, k - 1);
      assert Next(b[k - 1], b[k - 1 + 1]);
      NextSeen(b[k - 1], b[k]);
    }
  }

  lemma NotBegunSeen(s: State, r: Run)
    requires r.phase.Listing?
    ensures FilesSeen(s, r)
  {}

  /** A run that has ended well leaves every one of its files on some release, then and for ever. */
  lemma DonePublished(b: seq<State>, j: nat, k: nat, i: nat, name: Name)
    requires Behaviour(b) && j <= k < |b| && i < |b[j].runs| && b[j].runs[i].phase.Done? && name in b[j].runs[i].files
    ensures Carried(b[k], name)
  {
    hide Behaviour, Inv, Carried, EverHad;
    AlwaysSeen(b, j);
    Always(b, k);
    EverGrows(b, j, k);
    assert FilesSeen(b[j], b[j].runs[i]);
    HadForEver(b[j], b[k], name);
    HadIsCarried(b[k], name);
  }

  lemma HadIsCarried(s: State, name: Name)
    requires Inv(s) && EverHad(s, name)
    ensures Carried(s, name)
  {
    hide Inv;
    var c :| c in s.ever && c.name == name;
    EverIsCarried(s, c);
  }

  /** A run's `kept` grows by a name exactly when the run settles it. */
  lemma KeptStep(s: State, t: State, i: nat)
    requires Inv(s) && Next(s, t) && i < |s.runs|
    ensures |t.runs| == |s.runs|
    ensures t.runs[i].kept == s.runs[i].kept || (ReadyToSettle(s, i) && t == Settled(s, i))
  {
    hide Inv, Next;
    var a, kind := StepKinds(s, t);
    KeptByKind(s, t, a, kind, i);
  }

  ghost predicate ReadyToSettle(s: State, i: nat)
    requires i < |s.runs|
  {
    && s.runs[i].phase.Confirming? && s.runs[i].todo != []
    && OldestCarrier(s, s.runs[i].todo[0], s.runs[i].tag)
  }

  lemma KeptByKind(s: State, t: State, a: nat, kind: Kind, i: nat)
    requires a < |s.runs| && i < |s.runs| && Does(s, t, a, kind)
    ensures |t.runs| == |s.runs|
    ensures t.runs[i].kept == s.runs[i].kept || (ReadyToSettle(s, i) && t == Settled(s, i))
  {
    hide OldestCarrier;
  }

  /** In this step run i settled its copy of a name. */
  ghost predicate SettlesName(b: seq<State>, j: nat, i: nat, name: Name)
    requires j + 1 < |b|
  {
    i < |b[j].runs| && ReadyToSettle(b[j], i) && b[j].runs[i].todo[0] == name && b[j + 1] == Settled(b[j], i)
  }

  /** What publish returns of a run is exactly the names whose copy on its own release it found oldest and settled. */
  lemma {:induction false} KeptIffSettled(b: seq<State>, k: nat, i: nat, name: Name)
    requires Behaviour(b) && k < |b| && i < |b[k].runs|
    ensures name in b[k].runs[i].kept <==> exists j: nat :: j < k && SettlesName(b, j, i, name)
    decreases k
  {
    hide Inv, Next, OldestCarrier, Settled;
    if k > 0 {
      Always(b, k - 1);
      assert Next(b[k - 1], b[k - 1 + 1]);
      var s, t := b[k - 1], b[k];
      SameRuns(s, t);
      KeptIffSettled(b, k - 1, i, name);
      KeptStep(s, t, i);
      if ReadyToSettle(s, i) && t == Settled(s, i) {
        SettledKeeps(s, i);
        assert name == s.runs[i].todo[0] ==> SettlesName(b, k - 1, i, name);
      } else {
        assert !SettlesName(b, k - 1, i, name);
      }
    }
  }

  lemma SameRuns(s: State, t: State)
    requires Inv(s) && Next(s, t)
    ensures |t.runs| == |s.runs|
  {
    hide Inv, Next;
    var i, kind := StepKinds(s, t);
  }

  lemma SettledKeeps(s: State, i: nat)
    requires i < |s.runs| && ReadyToSettle(s, i)
    ensures Settled(s, i).runs[i].kept == s.runs[i].kept + [s.runs[i].todo[0]]
  {}

  /** A name is uploaded only if no release had it when the run looked: one that was published when a run listed, or
      when it last looked, that run never uploads. */
  lemma {:induction false} NeverAgain(b: seq<State>, j: nat, k: nat, i: nat, name: Name)
    requires Behaviour(b) && j <= k < |b| && i < |b[j].runs| && Carried(b[j], name)
    requires b[j].runs[i].phase.Listing? || b[j].runs[i].phase.Checking?
    ensures i < |b[k].runs| && !Publishing(b[k].runs[i], name)
    decreases k
  {
    hide Inv, Next, Carried, Init, Publishing;
    if j == k {
      NotYetUploads(b[k].runs[i], name);
    } else {
      NeverAgain(b, j, k - 1, i, name);
      Always(b, k - 1);
      assert Next(b[k - 1], b[k - 1 + 1]);
      CarriedForEver(b, j, k - 1, name);
      UploadsOnlyNew(b[k - 1], b[k], i, name);
    }
  }

  /** A run about to upload a name, or with its copy uploaded. */
  predicate Publishing(r: Run, name: Name) { (r.phase.Uploading? || InFlight(r)) && r.todo != [] && r.todo[0] == name }

  lemma NotYetUploads(r: Run, name: Name)
    requires r.phase.Listing? || r.phase.Checking?
    ensures !Publishing(r, name)
  {}

  lemma UploadsOnlyNew(s: State, t: State, i: nat, name: Name)
    requires Inv(s) && Next(s, t) && i < |s.runs| && Carried(s, name) && !Publishing(s.runs[i], name)
    ensures |t.runs| == |s.runs| && !Publishing(t.runs[i], name)
  {
    hide Inv, RunStep, Publishing, Fails;
    var a: nat :| a < |s.runs| && (RunStep(s, t, a) || (!Over(s.runs[a]) && t == Fails(s, a)));
    OnlyThatRun(s, t, a, i);
    if a == i {
      if RunStep(s, t, i) {
        StepUploadsOnlyNew(s, t, i, name);
      } else {
        assert t.runs[i] == s.runs[i].(phase := Failed) by { FailedRun(s, i); }
        FailedUploads(s.runs[i], name);
      }
    }
  }

  lemma FailedRun(s: State, i: nat)
    requires i < |s.runs|
    ensures Fails(s, i).runs == s.runs[i := s.runs[i].(phase := Failed)]
  {}

  lemma FailedUploads(r: Run, name: Name)
    ensures !Publishing(r.(phase := Failed), name)
  {}

  lemma StepUploadsOnlyNew(s: State, t: State, i: nat, name: Name)
    requires i < |s.runs| && Carried(s, name) && !Publishing(s.runs[i], name) && RunStep(s, t, i)
    ensures i < |t.runs| && !Publishing(t.runs[i], name)
  {
    hide RunStep, Without, OldestCarrier, Publishing, Listed;
    assert Listed(s, name) by { CarriedListed(s, name); }
    if s.runs[i].phase.Uploading? {
      UploadingOn(s, t, i, name);
    } else if s.runs[i].phase.Confirming? {
      ConfirmingOn(s, t, i, name);
    } else if s.runs[i].phase.Deleting? {
      DeletingOn(s, t, i, name);
    } else {
      LookedOnly(s, t, i, name);
    }
  }

  lemma CarriedListed(s: State, name: Name)
    requires Carried(s, name)
    ensures Listed(s, name)
  {
    var r: Rank :| Copy(name, r) in s.assets;
  }

  lemma UploadingOn(s: State, t: State, i: nat, name: Name)
    requires i < |s.runs| && !Publishing(s.runs[i], name) && RunStep(s, t, i) && s.runs[i].phase.Uploading?
    ensures i < |t.runs| && !Publishing(t.runs[i], name)
  {
    hide Without, OldestCarrier, Listed;
  }

  lemma ConfirmingOn(s: State, t: State, i: nat, name: Name)
    requires i < |s.runs| && !Publishing(s.runs[i], name) && RunStep(s, t, i) && s.runs[i].phase.Confirming?
    ensures i < |t.runs| && !Publishing(t.runs[i], name)
  {
    hide Without, OldestCarrier, Listed;
  }

  lemma DeletingOn(s: State, t: State, i: nat, name: Name)
    requires i < |s.runs| && !Publishing(s.runs[i], name) && RunStep(s, t, i) && s.runs[i].phase.Deleting?
    ensures i < |t.runs| && !Publishing(t.runs[i], name)
  {
    hide Without, OldestCarrier, Listed;
  }

  lemma LookedOnly(s: State, t: State, i: nat, name: Name)
    requires i < |s.runs| && Listed(s, name) && RunStep(s, t, i)
    requires !s.runs[i].phase.Uploading? && !s.runs[i].phase.Confirming? && !s.runs[i].phase.Deleting?
    ensures i < |t.runs| && !Publishing(t.runs[i], name)
  {
    hide Without, OldestCarrier, Listed;
  }

  // ---- when all runs are over ----

  /** Every run is over, well or not. */
  ghost predicate Quiet(s: State) { forall i | 0 <= i < |s.runs| :: Over(s.runs[i]) }

  ghost predicate OnlyCopy(s: State, name: Name) {
    exists r: Rank :: Copy(name, r) in s.assets && forall r': Rank | Copy(name, r') in s.assets :: r' == r
  }

  /** What is left is settled or was left unchecked. */
  lemma QuietSettled(b: seq<State>, k: nat, c: Copy)
    requires Behaviour(b) && k < |b| && Quiet(b[k]) && c in b[k].assets
    ensures c in b[k].uploaded && (c in b[k].settled || c in b[k].unchecked)
    ensures c in b[k].settled ==> b[k].uploaded[c] < b[k].settled[c]
  {
    hide Behaviour, DeletionsSafe, KeptOldest, OlderIsLater, HasNames, ReturnsKept, Owned;
    Always(b, k);
  }

  /** Of two copies left when every run is over, the newer one checked: the older one was uploaded after that check;
      so if it was checked too, it was later. */
  lemma LaterCheckedIsOlder(b: seq<State>, k: nat, c: Copy, d: Copy)
    requires Behaviour(b) && k < |b| && Quiet(b[k])
    requires c in b[k].assets && d in b[k].assets && c.name == d.name && c.on < d.on && d !in b[k].unchecked
    ensures c in b[k].uploaded && d in b[k].settled && b[k].settled[d] < b[k].uploaded[c]
    ensures c !in b[k].unchecked ==> c in b[k].settled && b[k].settled[d] < b[k].settled[c]
  {
    hide Behaviour, DeletionsSafe, KeptOldest, Accounted, HasNames, ReturnsKept, Owned;
    QuietSettled(b, k, c);
    QuietSettled(b, k, d);
    Always(b, k);
  }

  // ---- the history ----

  /** A copy some release older than c's had at some time. */
  predicate OlderAt(s: State, e: Copy, c: Copy) { e in s.first && e.name == c.name && e.on < c.on }

  /** c was last checked after the name was first uploaded to some older release. */
  ghost predicate CheckedAfterOlder(s: State, c: Copy) {
    c in s.checked && exists e :: OlderAt(s, e, c) && s.first[e] < s.checked[c]
  }

  ghost predicate FirstBooks(s: State) {
    && s.first.Keys == s.ever && (forall c | c in s.first :: s.first[c] < s.clock)
    && (forall c | c in s.assets :: c in s.first && c in s.uploaded && s.first[c] <= s.uploaded[c])
  }

  /** What was left unchecked is there, and is nobody's. */
  ghost predicate UncheckedThere(s: State) {
    && s.unchecked <= s.assets && s.unchecked !! s.settled.Keys
    && (forall i | 0 <= i < |s.runs| && InFlight(s.runs[i]) :: Current(s.runs[i]) !in s.unchecked)
  }

  /** A settled copy was last checked when it was settled, and no older release had had the name by then. */
  ghost predicate SettledFirst(s: State) {
    && (forall d | d in s.settled :: d in s.checked && s.checked[d] == s.settled[d])
    && (forall d, e | d in s.settled && OlderAt(s, e, d) :: s.first[e] > s.settled[d])
  }

  /** A copy that is gone, or about to be, was checked after some older release had had the name. */
  ghost predicate GoneChecked(s: State) {
    && (forall c | c in s.ever && c !in s.assets :: CheckedAfterOlder(s, c))
    && (forall i | 0 <= i < |s.runs| && s.runs[i].phase.Deleting? && s.runs[i].todo != [] ::
          CheckedAfterOlder(s, Current(s.runs[i])))
  }

  ghost predicate Timed(s: State) { FirstBooks(s) && UncheckedThere(s) && SettledFirst(s) && GoneChecked(s) }

  lemma InitTimed(s: State)
    requires Init(s)
    ensures Timed(s)
  {
    forall d, e | d in s.settled && OlderAt(s, e, d) ensures s.first[e] > s.settled[d] {
      assert e in s.assets && s.uploaded[e] > s.settled[d];
    }
  }

  lemma KeepsFirst(s: State, t: State, i: nat, kind: Kind)
    requires Inv(s) && Timed(s) && i < |s.runs| && Does(s, t, i, kind)
    ensures FirstBooks(t) && s.first.Keys <= t.first.Keys && forall c | c in s.first :: t.first[c] == s.first[c]
  {
    hide Accounted, DeletionsSafe, KeptOldest, OlderIsLater, ReturnsKept, OldestCarrier, HasNames, Owned, GoneChecked,
         SettledFirst, UncheckedThere;
  }

  lemma KeepsUnchecked(s: State, t: State, i: nat, kind: Kind)
    requires Inv(s) && Timed(s) && i < |s.runs| && Does(s, t, i, kind)
    ensures UncheckedThere(t)
  {
    hide Accounted, DeletionsSafe, KeptOldest, OlderIsLater, ReturnsKept, OldestCarrier, GoneChecked, SettledFirst,
         FirstBooks;
  }

  /** When it is settled a copy is the oldest there is, so no older release ever had the name. */
  lemma NoneOlderEver(s: State, c: Copy, e: Copy)
    requires KeptOldest(s) && OldestCarrier(s, c.name, c.on) && e in s.ever && e.name == c.name
    ensures c.on <= e.on
  {
    assert NoNewer(s, e);
    var d :| d in s.assets && d.name == e.name && d.on <= e.on;
    NoneOlder(s, c.name, c.on, d);
  }

  lemma KeepsSettledFirst(s: State, t: State, i: nat, kind: Kind)
    requires Inv(s) && Timed(s) && i < |s.runs| && Does(s, t, i, kind)
    ensures SettledFirst(t)
  {
    hide Inv, Timed, OldestCarrier, Does;
    forall d | d in t.settled ensures d in t.checked && t.checked[d] == t.settled[d] {
      SettledChecked(s, t, i, kind, d);
    }
    forall d, e | d in t.settled && OlderAt(t, e, d) ensures t.first[e] > t.settled[d] {
      SettledBeforeOlder(s, t, i, kind, d, e);
    }
  }

  lemma SettledChecked(s: State, t: State, i: nat, kind: Kind, d: Copy)
    requires Inv(s) && Timed(s) && i < |s.runs| && Does(s, t, i, kind) && d in t.settled
    ensures d in t.checked && t.checked[d] == t.settled[d]
  {
    hide Accounted, DeletionsSafe, OlderIsLater, ReturnsKept, OldestCarrier, GoneChecked, UncheckedThere, KeptOldest,
         FirstBooks;
  }

  lemma SettledBeforeOlder(s: State, t: State, i: nat, kind: Kind, d: Copy, e: Copy)
    requires Inv(s) && Timed(s) && i < |s.runs| && Does(s, t, i, kind) && d in t.settled && OlderAt(t, e, d)
    ensures e in t.first && t.first[e] > t.settled[d]
  {
    hide Accounted, DeletionsSafe, OlderIsLater, ReturnsKept, OldestCarrier, GoneChecked, UncheckedThere, KeptOldest,
         Owned;
    if kind.Settles? && d == Current(s.runs[i]) {
      NoneOlderEver(s, d, e);
    } else {
      assert d in s.settled;
    }
  }

  lemma StillChecked(s: State, t: State, c: Copy)
    requires CheckedAfterOlder(s, c) && c in t.checked && t.checked[c] == s.checked[c]
    requires s.first.Keys <= t.first.Keys && forall e | e in s.first :: t.first[e] == s.first[e]
    ensures CheckedAfterOlder(t, c)
  {
    var e :| OlderAt(s, e, c) && s.first[e] < s.checked[c];
    assert OlderAt(t, e, c);
  }

  /** A copy condemned now is checked now, and what is on an older release was uploaded before. */
  lemma CondemnedNow(s: State, t: State, i: nat)
    requires Inv(s) && FirstBooks(s) && i < |s.runs| && Does(s, t, i, Condemns)
    ensures s.runs[i].todo != [] && CheckedAfterOlder(t, Current(s.runs[i]))
  {
    hide Accounted, DeletionsSafe, OlderIsLater, ReturnsKept, KeptOldest;
    var c := Current(s.runs[i]);
    assert c in s.assets;
    var r: Rank :| Copy(c.name, r) in s.assets && r < c.on;
    assert OlderAt(t, Copy(c.name, r), c);
  }

  lemma KeepsGoneChecked(s: State, t: State, i: nat, kind: Kind)
    requires Inv(s) && Timed(s) && i < |s.runs| && Does(s, t, i, kind)
    ensures GoneChecked(t)
  {
    hide Accounted, DeletionsSafe, OlderIsLater, ReturnsKept, OldestCarrier, SettledFirst, UncheckedThere, KeptOldest,
         CheckedAfterOlder, Books;
    KeepsFirst(s, t, i, kind);
    if kind.Condemns? {
      CondemnedNow(s, t, i);
    }
    forall c | c in t.ever && c !in t.assets ensures CheckedAfterOlder(t, c) {
      assert CheckedAfterOlder(s, c);
      CheckedKept(s, t, i, kind, c);
      StillChecked(s, t, c);
    }
    forall j | 0 <= j < |t.runs| && t.runs[j].phase.Deleting? && t.runs[j].todo != []
      ensures CheckedAfterOlder(t, Current(t.runs[j]))
    {
      if j != i {
        assert InFlight(s.runs[j]) && t.runs[j] == s.runs[j];
        OtherCurrent(s, t, i, j, kind);
        StillChecked(s, t, Current(s.runs[j]));
      }
    }
  }

  /** Only copies in flight are checked. */
  lemma CheckedKept(s: State, t: State, i: nat, kind: Kind, c: Copy)
    requires Owned(s) && i < |s.runs| && Does(s, t, i, kind) && CheckedAfterOlder(s, c) && c !in t.assets
    ensures c in t.checked && t.checked[c] == s.checked[c]
  {
    hide OldestCarrier;
  }

  lemma OtherCurrent(s: State, t: State, i: nat, j: nat, kind: Kind)
    requires Owned(s) && i < |s.runs| && j < |s.runs| && j != i && Does(s, t, i, kind) && InFlight(s.runs[j])
    requires CheckedAfterOlder(s, Current(s.runs[j]))
    ensures Current(s.runs[j]) in t.checked && t.checked[Current(s.runs[j])] == s.checked[Current(s.runs[j])]
  {
    hide OldestCarrier;
  }

  lemma {:induction false} AlwaysTimed(b: seq<State>, k: nat)
    requires Behaviour(b) && k < |b|
    ensures Timed(b[k])
  {
    hide Inv, Next, Init, FirstBooks, UncheckedThere, SettledFirst, GoneChecked;
    if k == 0 {
      InitTimed(b[0]);
    } else {
      AlwaysTimed(b, k - 1);
      Always(b, k - 1);
      assert Next(b[k - 1], b[k - 1 + 1]);
      var i, kind := StepKinds(b[k - 1], b[k]);
      KeepsFirst(b[k - 1], b[k], i, kind);
      KeepsUnchecked(b[k - 1], b[k], i, kind);
      KeepsSettledFirst(b[k - 1], b[k], i, kind);
      KeepsGoneChecked(b[k - 1], b[k], i, kind);
    }
  }

  // ---- exactly one copy ----

  /** A copy that some release older than its own had the name before or since: it was checked after one did, and not
      left unchecked. */
  ghost predicate Caught(s: State, c: Copy) {
    (exists e :: OlderAt(s, e, c)) ==> CheckedAfterOlder(s, c) && c !in s.unchecked
  }

  /** When every run is over, a name some release carries is on exactly one release if and only if each copy of it
      that was ever uploaded, gone or not, to any release but the oldest that had the name, was last checked after an
      older one had been uploaded, and was not left unchecked. */
  lemma OneCopyIff(b: seq<State>, k: nat, name: Name)
    requires Behaviour(b) && k < |b| && Quiet(b[k]) && Carried(b[k], name)
    ensures OnlyCopy(b[k], name) <==> forall c | c in b[k].ever && c.name == name :: Caught(b[k], c)
  {
    hide Behaviour, Inv, Timed, Caught;
    var s := b[k];
    if OnlyCopy(s, name) {
      forall c | c in s.ever && c.name == name ensures Caught(s, c) {
        AloneCaught(b, k, c);
      }
    }
    if forall c | c in s.ever && c.name == name :: Caught(s, c) {
      var r: Rank :| Copy(name, r) in s.assets;
      forall r': Rank | Copy(name, r') in s.assets ensures r' == r {
        if r' < r {
          TwoNotCaught(b, k, Copy(name, r'), Copy(name, r));
        } else if r < r' {
          TwoNotCaught(b, k, Copy(name, r), Copy(name, r'));
        }
      }
    }
  }

  /** With one copy left every other is gone, or is the oldest there was. */
  lemma AloneCaught(b: seq<State>, k: nat, c: Copy)
    requires Behaviour(b) && k < |b| && OnlyCopy(b[k], c.name) && c in b[k].ever
    ensures Caught(b[k], c)
  {
    hide Behaviour, Inv, Timed, CheckedAfterOlder;
    Always(b, k);
    AlwaysTimed(b, k);
    var s := b[k];
    if e :| OlderAt(s, e, c) {
      var w := OldestThere(s, e);
      assert Copy(c.name, w.on) == w && Copy(c.name, c.on) == c;
      GoneCaught(s, c);
    }
  }

  lemma OldestThere(s: State, e: Copy) returns (w: Copy)
    requires Inv(s) && Timed(s) && e in s.first
    ensures w in s.assets && w.name == e.name && w.on <= e.on
  {
    hide Books, Owned, Accounted, OlderIsLater, ReturnsKept, DeletionsSafe, HasNames, SettledFirst, GoneChecked,
         UncheckedThere;
    assert NoNewer(s, e);
    w :| w in s.assets && w.name == e.name && w.on <= e.on;
  }

  lemma GoneCaught(s: State, c: Copy)
    requires Timed(s) && c in s.ever && c !in s.assets
    ensures CheckedAfterOlder(s, c) && c !in s.unchecked
  {
    hide SettledFirst, FirstBooks, CheckedAfterOlder;
  }

  /** Of two copies left the newer one was not caught. */
  lemma TwoNotCaught(b: seq<State>, k: nat, c: Copy, d: Copy)
    requires Behaviour(b) && k < |b| && Quiet(b[k])
    requires c in b[k].assets && d in b[k].assets && c.name == d.name && c.on < d.on
    ensures d in b[k].ever && !Caught(b[k], d)
  {
    hide Behaviour, Owned, OlderIsLater, ReturnsKept, DeletionsSafe, HasNames, Accounted, KeptOldest, GoneChecked,
         UncheckedThere;
    Always(b, k);
    AlwaysTimed(b, k);
    QuietSettled(b, k, d);
    assert OlderAt(b[k], c, d);
  }

  /** So when every upload of a name comes before every check of it, and no copy is left unchecked, exactly one
      stays. */
  lemma UploadsThenChecks(b: seq<State>, k: nat, name: Name)
    requires Behaviour(b) && k < |b| && Quiet(b[k]) && Carried(b[k], name)
    requires b[k].ever <= b[k].first.Keys && forall c | c in b[k].ever && c.name == name :: c !in b[k].unchecked
    requires forall c, d | c in b[k].ever && d in b[k].ever && c.name == name && d.name == name ::
               d in b[k].checked && b[k].first[c] < b[k].checked[d]
    ensures OnlyCopy(b[k], name)
  {
    hide Behaviour;
    hide Timed, CheckedAfterOlder;
    OneCopyIff(b, k, name);
    AlwaysTimed(b, k);
    assert b[k].first.Keys == b[k].ever by { FirstIsEver(b[k]); }
    forall c | c in b[k].ever && c.name == name ensures Caught(b[k], c) {
      if e :| OlderAt(b[k], e, c) {
        assert b[k].first[e] < b[k].checked[c];
        assert CheckedAfterOlder(b[k], c) by { CheckedAfter(b[k], e, c); }
      }
    }
  }

  lemma FirstIsEver(s: State)
    requires Timed(s)
    ensures s.first.Keys == s.ever
  {}

  lemma CheckedAfter(s: State, e: Copy, c: Copy)
    requires OlderAt(s, e, c) && c in s.checked && s.first[e] < s.checked[c]
    ensures CheckedAfterOlder(s, c)
  {}

  /** The older of two copies was never uploaded before the newer one was settled. */
  lemma NotCheckedAfter(b: seq<State>, k: nat, c: Copy, d: Copy)
    requires Behaviour(b) && k < |b| && c in b[k].assets && d in b[k].assets && c.name == d.name && c.on < d.on
    ensures c in b[k].uploaded && !(d in b[k].settled && b[k].uploaded[c] < b[k].settled[d])
  {
    hide Behaviour, DeletionsSafe, KeptOldest, Accounted, HasNames, ReturnsKept, Owned;
    Always(b, k);
  }

  // ---- the rule does not promise one copy ----

  function Two(r0: Phase, r1: Phase, todo0: seq<Name>, todo1: seq<Name>, kept0: seq<Name>, kept1: seq<Name>): seq<Run> {
    [Run(0, ["x"], todo0, r0, kept0), Run(1, ["x"], todo1, r1, kept1)]
  }

  function At(runs: seq<Run>, carried: set<Copy>, uploaded: map<Copy, int>, settled: map<Copy, int>,
              clock: int): State
  {
    State(runs, carried, carried, uploaded, settled, uploaded, settled, {}, clock)
  }

  const OLDER := Copy("x", 0)
  const NEWER := Copy("x", 1)

  /** The older release's run checks; the newer one's runs from beginning to end; then the older one's goes on. */
  function Stage(k: nat): State {
    var x: seq<Name> := ["x"];
    match k
    case 0 => At(Two(Listing, Listing, [], [], [], []), {}, map[], map[], 1)
    case 1 => At(Two(Checking, Listing, x, [], [], []), {}, map[], map[], 2)
    case 2 => At(Two(Uploading, Listing, x, [], [], []), {}, map[], map[], 3)
    case 3 => At(Two(Uploading, Checking, x, x, [], []), {}, map[], map[], 4)
    case 4 => At(Two(Uploading, Uploading, x, x, [], []), {}, map[], map[], 5)
    case 5 => At(Two(Uploading, Confirming, x, x, [], []), {NEWER}, map[NEWER := 5], map[], 6)
    case 6 => At(Two(Uploading, Checking, x, [], [], x), {NEWER}, map[NEWER := 5], map[NEWER := 6], 7)
    case 7 => At(Two(Uploading, Done, x, [], [], x), {NEWER}, map[NEWER := 5], map[NEWER := 6], 8)
    case 8 => At(Two(Confirming, Done, x, [], [], x), {NEWER, OLDER}, map[NEWER := 5, OLDER := 8], map[NEWER := 6], 9)
    case 9 =>
      At(Two(Checking, Done, [], [], x, x), {NEWER, OLDER}, map[NEWER := 5, OLDER := 8],
         map[NEWER := 6, OLDER := 9], 10)
    case _ =>
      At(Two(Done, Done, [], [], x, x), {NEWER, OLDER}, map[NEWER := 5, OLDER := 8], map[NEWER := 6, OLDER := 9], 11)
  }

  function Overtaken(): seq<State> { seq(11, k requires 0 <= k => Stage(k)) }

  lemma NextBy(s: State, t: State, i: nat)
    requires i < |s.runs| && RunStep(s, t, i)
    ensures Next(s, t)
  {}

  lemma FirstStages()
    ensures Next(Stage(0), Stage(1)) && Next(Stage(1), Stage(2)) && Next(Stage(2), Stage(3)) && Next(Stage(3), Stage(4))
  {
    assert Without(["x"], Stage(0)) == ["x"] && Without(["x"], Stage(2)) == ["x"];
    NextBy(Stage(0), Stage(1), 0);
    NextBy(Stage(1), Stage(2), 0);
    NextBy(Stage(2), Stage(3), 1);
    NextBy(Stage(3), Stage(4), 1);
  }

  lemma NewerStages()
    ensures Next(Stage(4), Stage(5)) && Next(Stage(5), Stage(6)) && Next(Stage(6), Stage(7))
  {
    hide *;
    NewerUploads();
    StageSettles(5, 1);
    NewerDone();
  }

  lemma NewerUploads()
    ensures Next(Stage(4), Stage(5))
  {
    NextBy(Stage(4), Stage(5), 1);
  }

  lemma NewerDone()
    ensures Next(Stage(6), Stage(7))
  {
    NextBy(Stage(6), Stage(7), 1);
  }

  lemma OlderStages()
    ensures Next(Stage(7), Stage(8)) && Next(Stage(8), Stage(9)) && Next(Stage(9), Stage(10))
  {
    hide *;
    OlderUploads();
    StageSettles(8, 0);
    OlderDone();
  }

  lemma OlderUploads()
    ensures Next(Stage(7), Stage(8))
  {
    NextBy(Stage(7), Stage(8), 0);
  }

  lemma OlderDone()
    ensures Next(Stage(9), Stage(10))
  {
    NextBy(Stage(9), Stage(10), 0);
  }

  lemma StageSettles(k: nat, i: nat)
    requires (k == 5 && i == 1) || (k == 8 && i == 0)
    ensures Next(Stage(k), Stage(k + 1))
  {
    var s, t := Stage(k), Stage(k + 1);
    assert Copy("x", i) in s.assets && OldestCarrier(s, "x", i);
    assert s.runs[i].todo[0] == "x" && s.runs[i].kept + ["x"] == t.runs[i].kept;
    assert s.runs[i].todo[1..] == [] == t.runs[i].todo;
    assert Settled(s, i).runs == t.runs;
    assert Settled(s, i) == t;
    NextBy(s, t, i);
  }

  /** Two runs that each end well can leave a name on two releases. */
  lemma TwoCopiesCanStay()
    ensures Behaviour(Overtaken()) && Quiet(Overtaken()[10])
    ensures OLDER in Overtaken()[10].assets && NEWER in Overtaken()[10].assets
    ensures !OnlyCopy(Overtaken()[10], "x")
  {
    hide Next, RunStep;
    var b := Overtaken();
    forall k | 0 <= k < |b| - 1 ensures Next(b[k], b[k + 1]) {
      FirstStages();
      NewerStages();
      OlderStages();
    }
    assert b[10] == Stage(10);
    assert Copy("x", 0) in b[10].assets && Copy("x", 1) in b[10].assets;
  }

  /** Both runs check; the newer release's upload is stored although gh says it failed; then the older one's goes on. */
  function StoredStage(k: nat): State {
    var x: seq<Name> := ["x"];
    var left := map[NEWER := 5];
    match k
    case 0 => At(Two(Listing, Listing, [], [], [], []), {}, map[], map[], 1)
    case 1 => At(Two(Checking, Listing, x, [], [], []), {}, map[], map[], 2)
    case 2 => At(Two(Uploading, Listing, x, [], [], []), {}, map[], map[], 3)
    case 3 => At(Two(Uploading, Checking, x, x, [], []), {}, map[], map[], 4)
    case 4 => At(Two(Uploading, Uploading, x, x, [], []), {}, map[], map[], 5)
    case 5 => At(Two(Uploading, Rechecking, x, x, [], []), {NEWER}, left, map[], 6).(unchecked := {NEWER})
    case 6 =>
      At(Two(Confirming, Rechecking, x, x, [], []), {NEWER, OLDER}, left[OLDER := 6], map[], 7).(unchecked := {NEWER})
    case 7 =>
      At(Two(Confirming, Checking, x, [], [], []), {NEWER, OLDER}, left[OLDER := 6], map[], 8).(unchecked := {NEWER})
    case 8 =>
      At(Two(Checking, Checking, [], [], x, []), {NEWER, OLDER}, left[OLDER := 6], map[OLDER := 8], 9)
        .(unchecked := {NEWER})
    case 9 =>
      At(Two(Done, Checking, [], [], x, []), {NEWER, OLDER}, left[OLDER := 6], map[OLDER := 8], 10)
        .(unchecked := {NEWER})
    case _ =>
      At(Two(Done, Done, [], [], x, []), {NEWER, OLDER}, left[OLDER := 6], map[OLDER := 8], 11)
        .(unchecked := {NEWER})
  }

  function StoredUnchecked(): seq<State> { seq(11, k requires 0 <= k => StoredStage(k)) }

  lemma StoredBegins()
    ensures Next(StoredStage(4), StoredStage(5)) && Next(StoredStage(5), StoredStage(6))
    ensures forall k | 0 <= k < 4 :: Next(StoredStage(k), StoredStage(k + 1))
  {
    hide Next, RunStep;
    FirstStages();
    forall k | 0 <= k < 5 ensures StoredStage(k) == Stage(k) {}
    StoredUploads();
  }

  lemma StoredUploads()
    ensures Next(StoredStage(4), StoredStage(5)) && Next(StoredStage(5), StoredStage(6))
  {
    assert Stored(StoredStage(4), 1) == StoredStage(5);
    NextBy(StoredStage(4), StoredStage(5), 1);
    assert Uploaded(StoredStage(5), 0) == StoredStage(6);
    NextBy(StoredStage(5), StoredStage(6), 0);
  }

  lemma StoredEnds()
    ensures forall k | 6 <= k < 10 :: Next(StoredStage(k), StoredStage(k + 1))
  {
    hide *;
    StoredListed();
    StoredSettles();
    StoredDone();
  }

  lemma StoredDone()
    ensures Next(StoredStage(8), StoredStage(9)) && Next(StoredStage(9), StoredStage(10))
  {
    NextBy(StoredStage(8), StoredStage(9), 0);
    NextBy(StoredStage(9), StoredStage(10), 1);
  }

  lemma StoredListed()
    ensures Next(StoredStage(6), StoredStage(7))
  {
    var s, t := StoredStage(6), StoredStage(7);
    assert NEWER in s.assets && Listed(s, "x") && s.runs[1].todo[1..] == [];
    assert SetRun(s, 1, Onward(s.runs[1])).runs == t.runs;
    NextBy(s, t, 1);
  }

  lemma StoredSettles()
    ensures Next(StoredStage(7), StoredStage(8))
  {
    var s, t := StoredStage(7), StoredStage(8);
    assert Copy("x", 0) in s.assets && OldestCarrier(s, "x", 0) && Listed(s, "x");
    assert s.runs[0].todo[0] == "x" && s.runs[0].kept + ["x"] == t.runs[0].kept && s.runs[0].todo[1..] == [];
    assert Settled(s, 0).runs == t.runs;
    assert Settled(s, 0) == t;
    NextBy(s, t, 0);
  }

  /** Even if every upload comes before every check: an upload that gh says failed, but that is stored, is never
      checked. */
  lemma StoredCopyCanStay()
    ensures Behaviour(StoredUnchecked()) && Quiet(StoredUnchecked()[10])
    ensures var s := StoredUnchecked()[10];
            && OLDER in s.assets && NEWER in s.assets && !OnlyCopy(s, "x")
            && forall c, d | c in s.first && d in s.checked :: s.first[c] < s.checked[d]
  {
    hide Next, RunStep, StoredStage, Init, Quiet, OnlyCopy;
    var b := StoredUnchecked();
    StoredBegins();
    StoredEnds();
    assert b[0] == StoredStage(0) && b[10] == StoredStage(10);
    forall k | 0 <= k < |b| - 1 ensures Next(b[k], b[k + 1]) {
      assert b[k] == StoredStage(k) && b[k + 1] == StoredStage(k + 1);
    }
    StoredFirst();
    StoredCopies();
    StoredTimes();
  }

  lemma StoredFirst()
    ensures Init(StoredStage(0))
  {}

  lemma StoredCopies()
    ensures var s := StoredStage(10); Quiet(s) && OLDER in s.assets && NEWER in s.assets && !OnlyCopy(s, "x")
  {
    var s := StoredStage(10);
    assert s.assets == {NEWER, OLDER} && s.runs == Two(Done, Done, [], [], ["x"], []);
    assert Copy("x", 0) in s.assets && Copy("x", 1) in s.assets;
  }

  lemma StoredTimes()
    ensures var s := StoredStage(10); forall c, d | c in s.first && d in s.checked :: s.first[c] < s.checked[d]
  {
    var s := StoredStage(10);
    assert s.first == map[NEWER := 5, OLDER := 6] && s.checked == map[OLDER := 8];
  }
}
