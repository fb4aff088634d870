/** `FirestoreService` over an abstract backend: the `assessments` collection as a map from
    document id to document and the object store as the set of paths written. The ids the
    backend assigns, the clock, the random suffix and the results of store calls are inputs. */
module Firestore {
  import opened Wrappers
  import opened Text
  import opened Ordering
  import ImageUpload

  /** An assessment document, without its id. */
  datatype Assessment = Assessment(
    userId: string,
    createdAt: int,
    latitude: Option<real>,
    longitude: Option<real>,
    category: string,
    element: string,
    condition: int,
    priority: int,
    photoUri: string,
    notes: string)

  /** A `Partial<Assessment>`: the fields present are the ones to overwrite. */
  datatype Patch = Patch(
    userId: Option<string>,
    createdAt: Option<int>,
    latitude: Option<Option<real>>,
    longitude: Option<Option<real>>,
    category: Option<string>,
    element: Option<string>,
    condition: Option<int>,
    priority: Option<int>,
    photoUri: Option<string>,
    notes: Option<string>)

  function Pick<T>(p: Option<T>, old_: T): T
  {
    if p.Some? then p.value else old_
  }

  /** What `updateDoc` does to a stored document: top-level fields of the patch replace those of
      the document, the others stay. */
  function ApplyPatch(a: Assessment, p: Patch): (r: Assessment)
    ensures p.userId.Some? ==> r.userId == p.userId.value
    ensures p.userId.None? ==> r.userId == a.userId
    ensures p.createdAt.Some? ==> r.createdAt == p.createdAt.value
    ensures p.createdAt.None? ==> r.createdAt == a.createdAt
    ensures p.latitude.Some? ==> r.latitude == p.latitude.value
    ensures p.latitude.None? ==> r.latitude == a.latitude
    ensures p.longitude.Some? ==> r.longitude == p.longitude.value
    ensures p.longitude.None? ==> r.longitude == a.longitude
    ensures p.category.Some? ==> r.category == p.category.value
    ensures p.category.None? ==> r.category == a.category
    ensures p.element.Some? ==> r.element == p.element.value
    ensures p.element.None? ==> r.element == a.element
    ensures p.condition.Some? ==> r.condition == p.condition.value
    ensures p.condition.None? ==> r.condition == a.condition
    ensures p.priority.Some? ==> r.priority == p.priority.value
    ensures p.priority.None? ==> r.priority == a.priority
    ensures p.photoUri.Some? ==> r.photoUri == p.photoUri.value
    ensures p.photoUri.None? ==> r.photoUri == a.photoUri
    ensures p.notes.Some? ==> r.notes == p.notes.value
    ensures p.notes.None? ==> r.notes == a.notes
    ensures p == Patch(None, None, None, None, None, None, None, None, None, None) ==> r == a
  {
    Assessment(
      Pick(p.userId, a.userId), Pick(p.createdAt, a.createdAt),
      Pick(p.latitude, a.latitude), Pick(p.longitude, a.longitude),
      Pick(p.category, a.category), Pick(p.element, a.element),
      Pick(p.condition, a.condition), Pick(p.priority, a.priority),
      Pick(p.photoUri, a.photoUri), Pick(p.notes, a.notes))
  }

  /** The id under which the picture is uploaded before the document exists:
      `Date.now().toString()` followed by the random base-36 suffix. */
  function TempId(now: nat, suffix: string): string
  {
    NatToString(now) + suffix
  }

  function CreatedAtOf(e: (string, Assessment)): int
  {
    e.1.createdAt
  }

  /** The elements of a finite set, in some order. */
  ghost function Elements(s: set<string>): (r: seq<string>)
    ensures forall x :: x in r <==> x in s
    ensures |r| == |s|
    decreases s
  {
    if s == {} then []
    else
      var x :| x in s;
      [x] + Elements(s - {x})
  }

  /** The ids of one user's documents. */
  ghost function UserIds(docs: map<string, Assessment>, userId: string): set<string>
  {
    set id | id in docs && docs[id].userId == userId
  }

  class Backend {
    var documents: map<string, Assessment>
    var blobs: set<string>

    constructor ()
      ensures documents == map[] && blobs == {}
    {
      documents := map[];
      blobs := {};
    }

    /** `createAssessmentWithImageUpload(assessmentData)`. The picture at
        `assessmentData.photo_uri` is uploaded first (three attempts, `io(k)` being what
        attempt `k` sees); only then is the document written, with `photo_uri` replaced by
        the download URL, under the id `added` gives (or `added` throws). `addDoc` always
        picks an id no document has yet. */
    method CreateAssessmentWithImageUpload(
      data: Assessment, now: nat, suffix: string,
      io: nat -> ImageUpload.UploadIo, added: Result<string, Thrown>)
      returns (r: Result<(string, Assessment), Thrown>)
      requires added.Success? ==> added.value !in documents
      modifies this
      ensures var path := ImageUpload.UploadPath(data.userId, TempId(now, suffix));
        old(blobs) <= blobs <= old(blobs) + {path}
      ensures var upload := ImageUpload.RetryOutcome(data.userId, TempId(now, suffix), io, 3);
        upload.Failure? ==>
          && documents == old(documents)
          && r == Failure(Error("Failed to create assessment: " + MessageOr(upload.error, "Unknown error occurred")))
      ensures var upload := ImageUpload.RetryOutcome(data.userId, TempId(now, suffix), io, 3);
        upload.Success? && added.Failure? ==>
          && documents == old(documents)
          && r == Failure(Error("Failed to create assessment: " + MessageOr(added.error, "Unknown error occurred")))
      ensures var upload := ImageUpload.RetryOutcome(data.userId, TempId(now, suffix), io, 3);
        upload.Success? && added.Success? ==>
          && r == Success((added.value, data.(photoUri := upload.value)))
          && documents == old(documents)[added.value := data.(photoUri := upload.value)]
          && ImageUpload.UploadPath(data.userId, TempId(now, suffix)) in blobs
      ensures r.Failure? ==> exists m :: r.error == Error("Failed to create assessment: " + m)
    {
      var tempId := TempId(now, suffix);
      var upload, attempts, waits, written := ImageUpload.UploadImageWithRetry(data.userId, tempId, io, 3);
      blobs := blobs + (set x | x in written);
      if upload.Failure? {
        r := Failure(Error("Failed to create assessment: " + MessageOr(upload.error, "Unknown error occurred")));
        return;
      }
      var withStorageUrl := data.(photoUri := upload.value);
      if added.Failure? {
        r := Failure(Error("Failed to create assessment: " + MessageOr(added.error, "Unknown error occurred")));
        return;
      }
      documents := documents[added.value := withStorageUrl];
      r := Success((added.value, withStorageUrl));
    }

    /** `getAssessment(id)`: the document with its id, or `Assessment not found`. `fault` is
        what `getDoc` throws, if it throws; it is rethrown as it is. */
    method GetAssessment(id: string, fault: Option<Thrown>) returns (r: Result<(string, Assessment), Thrown>)
      ensures fault.Some? ==> r == Failure(fault.value)
      ensures fault.None? && id in documents ==> r == Success((id, documents[id]))
      ensures fault.None? && id !in documents ==> r == Failure(Error("Assessment not found"))
    {
      if fault.Some? {
        r := Failure(fault.value);
      } else if id in documents {
        r := Success((id, documents[id]));
      } else {
        r := Failure(Error("Assessment not found"));
      }
    }

    /** `updateAssessment(id, data)`: the stored document is merged with the patch, and what
        comes back is the id with the patch alone. `updateDoc` throws `missing` when there is no
        such document, and `fault` when it fails for another reason; both are rethrown as they
        are and nothing changes. */
    method UpdateAssessment(id: string, patch: Patch, missing: Thrown, fault: Option<Thrown>) returns (r: Result<(string, Patch), Thrown>)
      modifies this
      ensures fault.Some? ==> r == Failure(fault.value) && documents == old(documents)
      ensures fault.None? && old(id in documents) ==> r == Success((id, patch)) && documents == old(documents)[id := ApplyPatch(old(documents)[id], patch)]
      ensures fault.None? && old(id !in documents) ==> r == Failure(missing) && documents == old(documents)
      ensures blobs == old(blobs)
    {
      if fault.Some? {
        r := Failure(fault.value);
        return;
      }
      if id !in documents {
        r := Failure(missing);
        return;
      }
      documents := documents[id := ApplyPatch(documents[id], patch)];
      r := Success((id, patch));
    }

    /** `deleteAssessment(id)`: only the document goes; its picture stays in the object store.
        When `deleteDoc` throws `fault`, that is rethrown and nothing changes. */
    method DeleteAssessment(id: string, fault: Option<Thrown>) returns (r: Result<(), Thrown>)
      modifies this
      ensures fault.Some? ==> r == Failure(fault.value) && documents == old(documents)
      ensures fault.None? ==> r == Success(()) && documents == old(documents) - {id}
      ensures blobs == old(blobs)
    {
      if fault.Some? {
        r := Failure(fault.value);
        return;
      }
      documents := documents - {id};
      r := Success(());
    }

    /** `listAssessments(userId)`: the user's documents with their ids, latest first, one entry
        per document; or what `getDocs` throws (`fault`), rethrown as it is. The order among
        documents created at the same instant is left open. */
    ghost function ListAssessments(userId: string, fault: Option<Thrown>): (r: Result<seq<(string, Assessment)>, Thrown>)
      reads this
      ensures fault.Some? ==> r == Failure(fault.value)
      ensures fault.None? ==> r.Success?
      ensures r.Success? ==> SortedDesc(r.value, CreatedAtOf)
      ensures r.Success? ==> forall e :: e in r.value <==> e.0 in documents && documents[e.0] == e.1 && e.1.userId == userId
      ensures r.Success? ==> |r.value| == |UserIds(documents, userId)|
    {
      if fault.Some? then Failure(fault.value)
      else
        var r := SortDesc(UserEntries(documents, userId), CreatedAtOf);
        forall e: (string, Assessment) ensures e in r <==> e in UserEntries(documents, userId) {
          SortDescMembers(UserEntries(documents, userId), CreatedAtOf, e);
        }
        Success(r)
    }
  }

  /** The documents of one user with their ids, in no particular order. */
  ghost function UserEntries(docs: map<string, Assessment>, userId: string): (r: seq<(string, Assessment)>)
    ensures forall e :: e in r <==> e.0 in docs && docs[e.0] == e.1 && e.1.userId == userId
    ensures |r| == |UserIds(docs, userId)|
  {
    var chosen := UserIds(docs, userId);
    var ids := Elements(chosen);
    assert forall k :: 0 <= k < |ids| ==> ids[k] in chosen;
    var r := seq(|ids|, k requires 0 <= k < |ids| => (ids[k], docs[ids[k]]));
    EntriesOfIds(docs, ids, r);
    r
  }

  lemma EntriesOfIds(docs: map<string, Assessment>, ids: seq<string>, r: seq<(string, Assessment)>)
    requires forall id :: id in ids ==> id in docs
    requires |r| == |ids| && forall k :: 0 <= k < |ids| ==> r[k] == (ids[k], docs[ids[k]])
    ensures forall e :: e in r <==> e.0 in ids && docs[e.0] == e.1
  {
    forall e: (string, Assessment) | e.0 in ids && docs[e.0] == e.1 ensures e in r {
      var k :| 0 <= k < |ids| && ids[k] == e.0;
      assert r[k] == e;
    }
  }

  /** The picture is written before the document: the document write is reached only when
      one of the three attempts succeeded. */
  lemma UploadFirst(data: Assessment, now: nat, suffix: string, io: nat -> ImageUpload.UploadIo)
    requires ImageUpload.RetryOutcome(data.userId, TempId(now, suffix), io, 3).Failure?
    ensures forall k :: 1 <= k <= 3 ==> ImageUpload.UploadImage(data.userId, TempId(now, suffix), io(k)).result.Failure?
  {
  }
}
