/** The list and record edits the handlers of App.tsx perform on the case
    state: `findIndex` and upsert on the archive list, `filter` by id,
    `map` by id on the session log, and object spread on the client info. */
module CaseRecords {
  import opened Types

  // ---------------------------------------------------------------------
  // Archive list
  // ---------------------------------------------------------------------

  /** At most one archive per id. */
  ghost predicate UniqueIds(archives: seq<Archive>) {
    forall i, j :: 0 <= i < j < |archives| ==> archives[i].id != archives[j].id
  }

  /** Some archive carries the id. */
  ghost predicate HasId(archives: seq<Archive>, id: string) {
    exists k :: 0 <= k < |archives| && archives[k].id == id
  }

  /** `archives.findIndex(a => a.id === id)`: the first position holding the
      id, or -1 when none does. */
  function FindIndex(archives: seq<Archive>, id: string): (r: int)
    ensures -1 <= r < |archives|
    ensures r == -1 <==> !HasId(archives, id)
    ensures r >= 0 ==> archives[r].id == id
    ensures r >= 0 ==> forall k :: 0 <= k < r ==> archives[k].id != id
  {
    if |archives| == 0 then -1
    else if archives[0].id == id then 0
    else
      var r := FindIndex(archives[1..], id);
      assert HasId(archives[1..], id) ==> HasId(archives, id) by {
        if HasId(archives[1..], id) {
          var k :| 0 <= k < |archives| - 1 && archives[1..][k].id == id;
          assert archives[k + 1].id == id;
        }
      }
      assert HasId(archives, id) ==> HasId(archives[1..], id) by {
        if HasId(archives, id) {
          var k :| 0 <= k < |archives| && archives[k].id == id;
          assert archives[1..][k - 1].id == id;
        }
      }
      if r == -1 then -1 else r + 1
  }

  /** The archive list after saving snapshot `a` (App.tsx, handleSaveArchive):
      the first entry with the same id is replaced where it stands; when
      there is none, `a` goes in front. */
  function Upsert(archives: seq<Archive>, a: Archive): (r: seq<Archive>)
    ensures HasId(archives, a.id) ==>
              var k := FindIndex(archives, a.id);
              |r| == |archives| && r[k] == a
              && forall j :: 0 <= j < |archives| && j != k ==> r[j] == archives[j]
    ensures !HasId(archives, a.id) ==> r == [a] + archives
  {
    var k := FindIndex(archives, a.id);
    if k >= 0 then archives[k := a] else [a] + archives
  }

  /** Saving keeps at most one archive per id. */
  lemma UpsertKeepsUnique(archives: seq<Archive>, a: Archive)
    requires UniqueIds(archives)
    ensures UniqueIds(Upsert(archives, a))
  {
    var r := Upsert(archives, a);
    if !HasId(archives, a.id) {
      forall i, j | 0 <= i < j < |r| ensures r[i].id != r[j].id {
        if i == 0 {
          assert r[j] == archives[j - 1];
        } else {
          assert r[i] == archives[i - 1] && r[j] == archives[j - 1];
        }
      }
    }
  }

  /** After a save, the snapshot is what the list holds under its id. */
  lemma UpsertThenFind(archives: seq<Archive>, a: Archive)
    ensures var r := Upsert(archives, a);
            var k := FindIndex(r, a.id);
            k >= 0 && r[k] == a
  {
    var r := Upsert(archives, a);
    if HasId(archives, a.id) {
      var k := FindIndex(archives, a.id);
      assert r[k].id == a.id;
      assert forall j :: 0 <= j < k ==> r[j].id != a.id;
      assert FindIndex(r, a.id) == k by {
        var k' := FindIndex(r, a.id);
        assert HasId(r, a.id);
        assert k' <= k;
        assert k' >= k;
      }
    } else {
      assert r[0] == a;
    }
  }

  /** Saving the same case twice is saving it once with the later snapshot:
      no second entry appears and the length does not change. */
  lemma UpsertTwice(archives: seq<Archive>, a: Archive, b: Archive)
    requires a.id == b.id
    ensures Upsert(Upsert(archives, a), b) == Upsert(archives, b)
  {
    var r := Upsert(archives, a);
    if HasId(archives, a.id) {
      var k := FindIndex(archives, a.id);
      assert FindIndex(r, b.id) == k by {
        assert r[k].id == b.id;
        assert HasId(r, b.id);
        assert forall j :: 0 <= j < k ==> r[j].id != b.id;
      }
    } else {
      assert r[0].id == b.id;
      assert FindIndex(r, b.id) == 0;
      assert r[0 := b] == [b] + archives;
    }
  }

  /** `archives.filter(a => a.id !== id)`. */
  function RemoveById(archives: seq<Archive>, id: string): (r: seq<Archive>)
    ensures |r| <= |archives|
    ensures forall a :: a in r <==> a in archives && a.id != id
    ensures !HasId(archives, id) ==> r == archives
  {
    if |archives| == 0 then []
    else
      var rest := RemoveById(archives[1..], id);
      assert archives == [archives[0]] + archives[1..];
      assert !HasId(archives, id) ==> !HasId(archives[1..], id) by {
        if HasId(archives[1..], id) {
          var k :| 0 <= k < |archives| - 1 && archives[1..][k].id == id;
          assert archives[k + 1].id == id;
        }
      }
      if archives[0].id == id then rest else [archives[0]] + rest
  }

  /** Removal keeps the relative order: removing from a concatenation is
      concatenating the removals. */
  lemma {:induction false} RemoveByIdConcat(xs: seq<Archive>, ys: seq<Archive>, id: string)
    ensures RemoveById(xs + ys, id) == RemoveById(xs, id) + RemoveById(ys, id)
    decreases |xs|
  {
    if xs != [] {
      assert (xs + ys)[1..] == xs[1..] + ys;
      RemoveByIdConcat(xs[1..], ys, id);
    } else {
      assert xs + ys == ys;
    }
  }

  /** After a delete nothing carries the id, and at most one archive per id
      still holds. */
  lemma RemoveByIdFacts(archives: seq<Archive>, id: string)
    ensures FindIndex(RemoveById(archives, id), id) == -1
    ensures UniqueIds(archives) ==> UniqueIds(RemoveById(archives, id))
  {
    var r := RemoveById(archives, id);
    forall k | 0 <= k < |r| ensures r[k].id != id {
      assert r[k] in r;
    }
    if UniqueIds(archives) {
      RemoveKeepsUnique(archives, id);
    }
  }

  lemma {:induction false} RemoveKeepsUnique(archives: seq<Archive>, id: string)
    requires UniqueIds(archives)
    ensures UniqueIds(RemoveById(archives, id))
    decreases |archives|
  {
    if archives != [] {
      var tail := archives[1..];
      RemoveKeepsUnique(tail, id);
      var rest := RemoveById(tail, id);
      if archives[0].id != id {
        var r := [archives[0]] + rest;
        forall j | 0 < j < |r| ensures r[0].id != r[j].id {
          assert r[j] in rest;
          assert r[j] in tail;
          var m :| 0 <= m < |tail| && tail[m] == r[j];
          assert archives[m + 1] == r[j];
        }
      }
    }
  }

  // ---------------------------------------------------------------------
  // Session log
  // ---------------------------------------------------------------------

  /** `sessions.map(s => s.id === edited.id ? edited : s)`: every record with
      the edited id becomes the edited record; the others, the length and
      the order stay. */
  function ReplaceById(sessions: seq<Session>, edited: Session): (r: seq<Session>)
    ensures |r| == |sessions|
    ensures forall i :: 0 <= i < |sessions| ==>
              r[i] == if sessions[i].id == edited.id then edited else sessions[i]
  {
    if |sessions| == 0 then []
    else
      [if sessions[0].id == edited.id then edited else sessions[0]]
      + ReplaceById(sessions[1..], edited)
  }

  /** The fields of a record the edit dialog cannot touch. */
  ghost predicate SameFrame(a: Session, b: Session) {
    a.id == b.id && a.timestamp == b.timestamp && a.mode == b.mode
  }

  /** An edited record is consistent with the log when every record with its
      id has its timestamp and mode. */
  ghost predicate ConsistentEdit(sessions: seq<Session>, edited: Session) {
    forall i :: 0 <= i < |sessions| && sessions[i].id == edited.id ==> SameFrame(sessions[i], edited)
  }

  /** Saving a consistent edit keeps each position's id, timestamp and mode,
      and saving it again changes nothing more. */
  lemma ReplaceByIdFrame(sessions: seq<Session>, edited: Session)
    requires ConsistentEdit(sessions, edited)
    ensures var r := ReplaceById(sessions, edited);
            forall i :: 0 <= i < |r| ==> SameFrame(r[i], sessions[i])
    ensures ReplaceById(ReplaceById(sessions, edited), edited) == ReplaceById(sessions, edited)
  {
  }

  /** The content fields the edit dialog rewrites (App.tsx, EditModal). */
  datatype DraftField = StatementField | AnalysisField | PlanField | FeedbackField

  /** `{...session, <field>: value}` */
  function WithField(s: Session, f: DraftField, value: string): (r: Session)
    ensures SameFrame(r, s)
    ensures f == StatementField ==> r.clientStatement == value && r.(clientStatement := s.clientStatement) == s
    ensures f == AnalysisField ==> r.analysis == value && r.(analysis := s.analysis) == s
    ensures f == PlanField ==> r.plan == value && r.(plan := s.plan) == s
    ensures f == FeedbackField ==> r.feedback == value && r.(feedback := s.feedback) == s
  {
    match f
    case StatementField => s.(clientStatement := value)
    case AnalysisField => s.(analysis := value)
    case PlanField => s.(plan := value)
    case FeedbackField => s.(feedback := value)
  }

  /** Session ids strictly increase along the log. */
  ghost predicate IdsIncreasing(sessions: seq<Session>) {
    forall i, j :: 0 <= i < j < |sessions| ==> sessions[i].id < sessions[j].id
  }

  /** Appending a record whose clock reading is later than every earlier
      one keeps ids increasing, hence distinct. */
  lemma AppendKeepsIdsIncreasing(sessions: seq<Session>, s: Session)
    requires IdsIncreasing(sessions)
    requires forall t :: t in sessions ==> t.id < s.id
    ensures IdsIncreasing(sessions + [s])
  {
    var r := sessions + [s];
    forall i, j | 0 <= i < j < |r| ensures r[i].id < r[j].id {
      assert r[i] in sessions;
    }
  }

  // ---------------------------------------------------------------------
  // Client info
  // ---------------------------------------------------------------------

  /** The client info of a new case. */
  const DefaultClientInfo := ClientInfo("", "", "未说明", "", "")

  /** An object holding some of the client-info fields. */
  datatype InfoPatch = InfoPatch(
    name: Option<string>,
    age: Option<string>,
    gender: Option<string>,
    contact: Option<string>,
    initialProblem: Option<string>)

  /** All five fields of `info` as a patch. */
  function FullPatch(info: ClientInfo): InfoPatch {
    InfoPatch(Some(info.name), Some(info.age), Some(info.gender), Some(info.contact),
              Some(info.initialProblem))
  }

  /** `{...info, ...patch}`: the fields the patch holds win. */
  function Merge(info: ClientInfo, patch: InfoPatch): (r: ClientInfo)
    ensures patch.name.Some? ==> r.name == patch.name.value
    ensures patch.name.None? ==> r.name == info.name
    ensures patch.age.Some? ==> r.age == patch.age.value
    ensures patch.age.None? ==> r.age == info.age
    ensures patch.gender.Some? ==> r.gender == patch.gender.value
    ensures patch.gender.None? ==> r.gender == info.gender
    ensures patch.contact.Some? ==> r.contact == patch.contact.value
    ensures patch.contact.None? ==> r.contact == info.contact
    ensures patch.initialProblem.Some? ==> r.initialProblem == patch.initialProblem.value
    ensures patch.initialProblem.None? ==> r.initialProblem == info.initialProblem
  {
    ClientInfo(
      patch.name.GetOr(info.name),
      patch.age.GetOr(info.age),
      patch.gender.GetOr(info.gender),
      patch.contact.GetOr(info.contact),
      patch.initialProblem.GetOr(info.initialProblem))
  }

  /** Applying the same patch twice is applying it once; a patch holding
      every field replaces the info outright; an empty patch changes
      nothing. */
  lemma MergeFacts(info: ClientInfo, patch: InfoPatch, other: ClientInfo)
    ensures Merge(Merge(info, patch), patch) == Merge(info, patch)
    ensures Merge(info, FullPatch(other)) == other
    ensures Merge(info, InfoPatch(None, None, None, None, None)) == info
  {
  }
}
