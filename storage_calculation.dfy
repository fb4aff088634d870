/** The storage estimates of `StorageCalculationService`: the byte count of one document after
    the billing rules, the per-user and system-wide totals built from it, and the unit that
    `formatBytes` picks. Every Firestore and Storage read is an input. */
module StorageCalculation {
  import opened Wrappers
  import opened Text

  // ---------------------------------------------------------------- values

  /** A field value as `calculateDocumentSize` distinguishes it by `typeof`, `instanceof` and
      `Array.isArray`. `Other` is what reaches the fallback branch (a bigint, a symbol or a
      function), carried as the text `String(value)` gives it. */
  datatype Value =
    | Str(s: string)
    | Num(x: real)
    | Bool(b: bool)
    | Null
    | Undefined
    | Date
    | Arr(items: seq<Value>)
    | Obj(fields: seq<Field>)
    | Other(text: string)

  /** One entry of `Object.entries`. */
  datatype Field = Field(name: string, value: Value)

  // ---------------------------------------------------------------- sizes

  /** The bytes a field value adds besides its name and the one-byte field overhead. */
  function ValueSize(v: Value): nat
    decreases v, 0
  {
    match v
    case Str(s) => Utf8Length(s)
    case Num(_) => 8
    case Bool(_) => 1
    case Null => 1
    case Undefined => 1
    case Date => 8
    case Arr(items) => 1 + ElementsSize(items)
    case Obj(fields) => DocSize(fields)
    case Other(t) => Utf8Length(t)
  }

  /** The estimated size of a document (or nested object) with these entries: one byte for
      the name, then every field. */
  function DocSize(fields: seq<Field>): (r: nat)
    ensures r >= 1 + |fields|
    decreases fields, 2
  {
    1 + EntriesSize(fields)
  }

  /** The bytes the entries add, one field after the other as the loop visits them. */
  function EntriesSize(fields: seq<Field>): (r: nat)
    ensures r >= |fields|
    decreases fields, 1
  {
    if fields == [] then 0
    else EntriesSize(fields[..|fields| - 1]) + FieldSize(fields[|fields| - 1])
  }

  /** A field costs its UTF-8 name, its value and one byte of overhead. */
  function FieldSize(f: Field): (r: nat)
    ensures r >= 1
    decreases f, 0
  {
    Utf8Length(f.name) + ValueSize(f.value) + 1
  }

  /** The elements of an array value: each is sized as the document `{temp: item}`. */
  function ElementsSize(items: seq<Value>): nat
    decreases items, 0
  {
    if items == [] then 0
    else ElementsSize(items[..|items| - 1]) + 6 + ValueSize(items[|items| - 1])
  }

  // ---------------------------------------------------------------- nesting depth

  /** How deeply arrays and objects nest in a value; the measure `calculateDocumentSize`
      recurses on, since `{temp: item}` is a new object that is not part of the input. */
  function Depth(v: Value): nat
    decreases v, 1
  {
    match v
    case Arr(items) => 1 + ItemsDepth(items)
    case Obj(fields) => 1 + FieldsDepth(fields)
    case _ => 0
  }

  function ItemsDepth(items: seq<Value>): nat
    decreases items, 0
  {
    if items == [] then 0
    else Max(ItemsDepth(items[..|items| - 1]), Depth(items[|items| - 1]))
  }

  function FieldsDepth(fields: seq<Field>): nat
    decreases fields, 0
  {
    if fields == [] then 0
    else Max(FieldsDepth(fields[..|fields| - 1]), Depth(fields[|fields| - 1].value))
  }

  function Max(a: nat, b: nat): nat
  {
    if a >= b then a else b
  }

  lemma {:induction false} ItemDepth(items: seq<Value>, k: nat)
    requires k < |items|
    ensures Depth(items[k]) <= ItemsDepth(items)
    decreases |items|
  {
    if k < |items| - 1 {
      ItemDepth(items[..|items| - 1], k);
    }
  }

  lemma {:induction false} FieldDepth(fields: seq<Field>, k: nat)
    requires k < |fields|
    ensures Depth(fields[k].value) <= FieldsDepth(fields)
    decreases |fields|
  {
    if k < |fields| - 1 {
      FieldDepth(fields[..|fields| - 1], k);
    }
  }

  // ---------------------------------------------------------------- calculateDocumentSize

  /** `calculateDocumentSize`: the entries in order, an array element through the document
      `{temp: item}`, a nested object through a recursive call. */
  method CalculateDocumentSize(data: seq<Field>) returns (size: nat)
    ensures size == DocSize(data)
    decreases FieldsDepth(data)
  {
    size := 1;
    for i := 0 to |data|
      invariant size == 1 + EntriesSize(data[..i])
    {
      var key := data[i].name;
      var value := data[i].value;
      assert data[..i + 1][..i] == data[..i];
      var before := size;
      size := size + Utf8Length(key);
      match value {
        case Str(s) =>
          size := size + Utf8Length(s);
        case Num(_) =>
          size := size + 8;
        case Bool(_) =>
          size := size + 1;
        case Null =>
          size := size + 1;
        case Undefined =>
          size := size + 1;
        case Date =>
          size := size + 8;
        case Arr(items) =>
          size := size + 1;
          FieldDepth(data, i);
          var start := size;
          for j := 0 to |items|
            invariant size == start + ElementsSize(items[..j])
          {
            assert items[..j + 1][..j] == items[..j];
            ItemDepth(items, j);
            var wrapped := [Field("temp", items[j])];
            assert FieldsDepth(wrapped) == Depth(items[j]);
            var s := CalculateDocumentSize(wrapped);
            TempDocument(items[j]);
            size := size + s;
          }
          assert items[..|items|] == items;
        case Obj(fields) =>
          FieldDepth(data, i);
          var s := CalculateDocumentSize(fields);
          size := size + s;
        case Other(t) =>
          size := size + Utf8Length(t);
      }
      size := size + 1;
      assert size == before + FieldSize(data[i]);
    }
    assert data[..|data|] == data;
  }

  // ---------------------------------------------------------------- size properties

  /** An object with no fields costs the one byte of its name. */
  lemma EmptyObject()
    ensures DocSize([]) == 1
    ensures ValueSize(Obj([])) == 1
  {
  }

  /** The object `{temp: item}` costs 6 bytes besides the item: 1 for the name, 4 for `temp`,
      1 for the field. */
  lemma TempDocument(item: Value)
    ensures DocSize([Field("temp", item)]) == 6 + ValueSize(item)
  {
    var one := [Field("temp", item)];
    assert one[..0] == [];
    assert EntriesSize(one) == FieldSize(one[0]);
    Utf8LengthOfAscii("temp");
    assert Utf8Length(one[0].name) == 4;
  }

  /** Adding a field adds its UTF-8 name, its value and one byte. */
  lemma AddField(fields: seq<Field>, name: string, v: Value)
    ensures DocSize(fields + [Field(name, v)]) == DocSize(fields) + Utf8Length(name) + ValueSize(v) + 1
  {
    var more := fields + [Field(name, v)];
    assert more[..|more| - 1] == fields;
    assert more[|more| - 1] == Field(name, v);
    assert EntriesSize(more) == EntriesSize(fields) + FieldSize(Field(name, v));
  }

  /** So adding `"x": "y"` adds exactly 3 bytes. */
  lemma AddOneLetterField(fields: seq<Field>)
    ensures DocSize(fields + [Field("x", Str("y"))]) == DocSize(fields) + 3
  {
    AddField(fields, "x", Str("y"));
    Utf8LengthOfAscii("x");
    Utf8LengthOfAscii("y");
    assert ValueSize(Str("y")) == 1;
  }

  lemma {:induction false} EntriesSizeAppend(a: seq<Field>, b: seq<Field>)
    ensures EntriesSize(a + b) == EntriesSize(a) + EntriesSize(b)
    decreases |b|
  {
    if b == [] {
      assert a + b == a;
    } else {
      var ab := a + b;
      var b' := b[..|b| - 1];
      assert ab[..|ab| - 1] == a + b';
      assert ab[|ab| - 1] == b[|b| - 1];
      EntriesSizeAppend(a, b');
    }
  }

  /** Taking one entry out of the list takes its size out of the total. */
  lemma RemoveEntry(b: seq<Field>, k: nat)
    requires k < |b|
    ensures EntriesSize(b) == EntriesSize(b[..k] + b[k + 1..]) + FieldSize(b[k])
    ensures multiset(b) == multiset(b[..k] + b[k + 1..]) + multiset{b[k]}
  {
    var x := b[k];
    assert b == b[..k] + ([x] + b[k + 1..]);
    EntriesSizeAppend(b[..k], [x] + b[k + 1..]);
    EntriesSizeAppend([x], b[k + 1..]);
    EntriesSizeAppend(b[..k], b[k + 1..]);
    assert [x][..0] == [];
  }

  lemma Cancel<T>(p: multiset<T>, q: multiset<T>, x: T)
    requires p + multiset{x} == q + multiset{x}
    ensures p == q
  {
    assert forall y :: p[y] == (p + multiset{x})[y] - (if y == x then 1 else 0);
    assert forall y :: q[y] == (q + multiset{x})[y] - (if y == x then 1 else 0);
  }

  /** The size does not depend on the order in which the entries are listed. */
  lemma {:induction false} EntriesSizePermutation(a: seq<Field>, b: seq<Field>)
    requires multiset(a) == multiset(b)
    ensures EntriesSize(a) == EntriesSize(b)
    decreases |a|
  {
    if a == [] {
      assert |b| == |multiset(b)|;
    } else {
      var x := a[|a| - 1];
      var a' := a[..|a| - 1];
      assert a == a' + [x];
      assert multiset(a) == multiset(a') + multiset{x};
      assert x in multiset(b);
      var k :| 0 <= k < |b| && b[k] == x;
      RemoveEntry(b, k);
      var b' := b[..k] + b[k + 1..];
      Cancel(multiset(a'), multiset(b'), x);
      EntriesSizePermutation(a', b');
    }
  }

  lemma FieldOrderIrrelevant(a: seq<Field>, b: seq<Field>)
    requires multiset(a) == multiset(b)
    ensures DocSize(a) == DocSize(b)
    ensures ValueSize(Obj(a)) == ValueSize(Obj(b))
  {
    EntriesSizePermutation(a, b);
  }

  /** An array costs one byte, and every element 6 bytes more than the element itself. */
  lemma ArrayElement(items: seq<Value>, x: Value)
    ensures ValueSize(Arr([])) == 1
    ensures ValueSize(Arr(items + [x])) == ValueSize(Arr(items)) + 6 + ValueSize(x)
  {
    var more := items + [x];
    assert more[..|more| - 1] == items;
  }

  // ---------------------------------------------------------------- per-user totals

  /** The result of `calculateFirestoreUsage`. */
  datatype FirestoreUsage = FirestoreUsage(assessmentSize: nat, userProfileSize: nat, totalSize: nat, documentCount: nat)

  /** The size of every listed document. */
  function SumDocSizes(docs: seq<seq<Field>>): nat
  {
    if docs == [] then 0 else SumDocSizes(docs[..|docs| - 1]) + DocSize(docs[|docs| - 1])
  }

  /** The profile read: it may throw (caught, nothing counted) or find no profile. */
  function ProfileSize(profile: Result<Option<seq<Field>>, Thrown>): nat
  {
    if profile.Success? && profile.value.Some? then DocSize(profile.value.value) else 0
  }

  function ProfileCount(profile: Result<Option<seq<Field>>, Thrown>): nat
  {
    if profile.Success? && profile.value.Some? then 1 else 0
  }

  /** `calculateFirestoreUsage(userId)`, given what `getUserProfile` and `listAssessments`
      return or throw for the user. Each read that throws is caught and adds nothing, so the
      outer `catch` is never reached and this always returns. */
  method CalculateFirestoreUsage(profile: Result<Option<seq<Field>>, Thrown>, assessments: Result<seq<seq<Field>>, Thrown>)
    returns (u: FirestoreUsage)
    ensures u.userProfileSize == ProfileSize(profile)
    ensures u.assessmentSize == (if assessments.Success? then SumDocSizes(assessments.value) else 0)
    ensures u.totalSize == u.userProfileSize + u.assessmentSize
    ensures u.documentCount == ProfileCount(profile) + (if assessments.Success? then |assessments.value| else 0)
  {
    var totalSize := 0;
    var documentCount := 0;
    var userProfileSize := 0;
    if profile.Success? && profile.value.Some? {
      userProfileSize := CalculateDocumentSize(profile.value.value);
      totalSize := totalSize + userProfileSize;
      documentCount := documentCount + 1;
    }
    var assessmentSize := 0;
    if assessments.Success? {
      var docs := assessments.value;
      for k := 0 to |docs|
        invariant assessmentSize == SumDocSizes(docs[..k])
        invariant totalSize == userProfileSize + assessmentSize
        invariant documentCount == ProfileCount(profile) + k
      {
        assert docs[..k + 1][..k] == docs[..k];
        var docSize := CalculateDocumentSize(docs[k]);
        assessmentSize := assessmentSize + docSize;
        totalSize := totalSize + docSize;
        documentCount := documentCount + 1;
      }
      assert docs[..|docs|] == docs;
    }
    u := FirestoreUsage(assessmentSize, userProfileSize, totalSize, documentCount);
  }

  /** The `StorageMetrics` record. */
  datatype StorageMetrics = StorageMetrics(
    totalDocuments: nat,
    firestoreSize: nat,
    storageSize: nat,
    totalSize: nat,
    assessmentCount: nat,
    imageCount: nat,
    lastCalculated: int)

  /** What `calculateStorageUsage` contributes: the bytes and the number of files read. */
  datatype StorageUsage = StorageUsage(totalSize: nat, fileCount: nat)

  /** `calculateUserStorageMetrics(userId)`. `firestoreProfile` and `firestoreAssessments`
      are what the Firestore usage reads see, `storage` is the Storage usage, `listing` the
      separate `listAssessments` read that gives the count, `now` the clock. Only that last
      read can throw here; it is rethrown wrapped. */
  method CalculateUserStorageMetrics(
    firestoreProfile: Result<Option<seq<Field>>, Thrown>,
    firestoreAssessments: Result<seq<seq<Field>>, Thrown>,
    storage: StorageUsage,
    listing: Result<seq<seq<Field>>, Thrown>,
    now: int)
    returns (r: Result<StorageMetrics, Thrown>)
    ensures listing.Failure? ==> r == Failure(Error("Failed to calculate storage metrics: " + MessageOr(listing.error, "Unknown error")))
    ensures listing.Success? ==> r.Success?
    ensures r.Success? ==>
      var m := r.value;
      && m.totalSize == m.firestoreSize + m.storageSize
      && m.firestoreSize == ProfileSize(firestoreProfile) + (if firestoreAssessments.Success? then SumDocSizes(firestoreAssessments.value) else 0)
      && m.storageSize == storage.totalSize
      && m.totalDocuments == ProfileCount(firestoreProfile) + (if firestoreAssessments.Success? then |firestoreAssessments.value| else 0)
      && m.assessmentCount == |listing.value|
      && m.imageCount == storage.fileCount
      && m.lastCalculated == now
  {
    var usage := CalculateFirestoreUsage(firestoreProfile, firestoreAssessments);
    if listing.Failure? {
      r := Failure(Error("Failed to calculate storage metrics: " + MessageOr(listing.error, "Unknown error")));
      return;
    }
    r := Success(StorageMetrics(
      usage.documentCount,
      usage.totalSize,
      storage.totalSize,
      usage.totalSize + storage.totalSize,
      |listing.value|,
      storage.fileCount,
      now));
  }

  // ---------------------------------------------------------------- system totals

  datatype User = User(id: string, email: string)

  datatype UserEntry = UserEntry(userId: string, email: string, metrics: StorageMetrics)

  datatype SystemMetrics = SystemMetrics(
    totalUsers: nat,
    totalDocuments: nat,
    totalFirestoreSize: nat,
    totalStorageSize: nat,
    totalSystemSize: nat,
    userBreakdown: seq<UserEntry>)

  /** The entry pushed for a user whose metrics could not be calculated. */
  function ZeroMetrics(now: int): StorageMetrics
  {
    StorageMetrics(0, 0, 0, 0, 0, 0, now)
  }

  /** The breakdown entry for one user, given what `calculateUserStorageMetrics` does for them. */
  function EntryFor(u: User, metricsOf: string -> Result<StorageMetrics, Thrown>, now: int): (e: UserEntry)
    ensures e.userId == u.id && e.email == u.email
    ensures metricsOf(u.id).Failure? ==> e.metrics == ZeroMetrics(now)
    ensures metricsOf(u.id).Success? ==> e.metrics == metricsOf(u.id).value
  {
    match metricsOf(u.id)
    case Success(m) => UserEntry(u.id, u.email, m)
    case Failure(_) => UserEntry(u.id, u.email, ZeroMetrics(now))
  }

  function SumDocuments(es: seq<UserEntry>): nat
  {
    if es == [] then 0 else SumDocuments(es[..|es| - 1]) + es[|es| - 1].metrics.totalDocuments
  }

  function SumFirestore(es: seq<UserEntry>): nat
  {
    if es == [] then 0 else SumFirestore(es[..|es| - 1]) + es[|es| - 1].metrics.firestoreSize
  }

  function SumStorage(es: seq<UserEntry>): nat
  {
    if es == [] then 0 else SumStorage(es[..|es| - 1]) + es[|es| - 1].metrics.storageSize
  }

  /** `calculateSystemStorageMetrics()`, given what `listAllUsers` returns or throws and the
      outcome of `calculateUserStorageMetrics` for each user id. */
  method CalculateSystemStorageMetrics(
    users: Result<seq<User>, Thrown>,
    metricsOf: string -> Result<StorageMetrics, Thrown>,
    now: int)
    returns (r: Result<SystemMetrics, Thrown>)
    ensures users.Failure? ==> r == Failure(Error("Failed to calculate system storage metrics: " + MessageOr(users.error, "Unknown error")))
    ensures users.Success? ==> r.Success?
    ensures r.Success? ==>
      var s := r.value;
      && s.totalUsers == |users.value|
      && |s.userBreakdown| == |users.value|
      && (forall k :: 0 <= k < |users.value| ==> s.userBreakdown[k] == EntryFor(users.value[k], metricsOf, now))
      && s.totalDocuments == SumDocuments(s.userBreakdown)
      && s.totalFirestoreSize == SumFirestore(s.userBreakdown)
      && s.totalStorageSize == SumStorage(s.userBreakdown)
      && s.totalSystemSize == s.totalFirestoreSize + s.totalStorageSize
  {
    if users.Failure? {
      r := Failure(Error("Failed to calculate system storage metrics: " + MessageOr(users.error, "Unknown error")));
      return;
    }
    var all := users.value;
    var totalDocuments := 0;
    var totalFirestoreSize := 0;
    var totalStorageSize := 0;
    var userBreakdown: seq<UserEntry> := [];
    for k := 0 to |all|
      invariant |userBreakdown| == k
      invariant forall j :: 0 <= j < k ==> userBreakdown[j] == EntryFor(all[j], metricsOf, now)
      invariant totalDocuments == SumDocuments(userBreakdown)
      invariant totalFirestoreSize == SumFirestore(userBreakdown)
      invariant totalStorageSize == SumStorage(userBreakdown)
    {
      var user := all[k];
      var before := userBreakdown;
      match metricsOf(user.id) {
        case Success(userMetrics) =>
          totalDocuments := totalDocuments + userMetrics.totalDocuments;
          totalFirestoreSize := totalFirestoreSize + userMetrics.firestoreSize;
          totalStorageSize := totalStorageSize + userMetrics.storageSize;
          userBreakdown := userBreakdown + [UserEntry(user.id, user.email, userMetrics)];
        case Failure(_) =>
          userBreakdown := userBreakdown + [UserEntry(user.id, user.email, ZeroMetrics(now))];
      }
      assert userBreakdown[..k] == before;
    }
    r := Success(SystemMetrics(|all|, totalDocuments, totalFirestoreSize, totalStorageSize,
                               totalFirestoreSize + totalStorageSize, userBreakdown));
  }

  /** A user whose calculation failed adds nothing to the totals. */
  lemma FailedUserAddsNothing(es: seq<UserEntry>, u: User, now: int)
    ensures var e := UserEntry(u.id, u.email, ZeroMetrics(now));
      && SumDocuments(es + [e]) == SumDocuments(es)
      && SumFirestore(es + [e]) == SumFirestore(es)
      && SumStorage(es + [e]) == SumStorage(es)
  {
    var more := es + [UserEntry(u.id, u.email, ZeroMetrics(now))];
    assert more[..|more| - 1] == es;
  }

  // ---------------------------------------------------------------- formatBytes

  const Sizes: seq<string> := ["Bytes", "KB", "MB", "GB", "TB"]

  function Pow1024(i: nat): (p: nat)
    ensures p >= 1
  {
    if i == 0 then 1 else 1024 * Pow1024(i - 1)
  }

  /** `Math.floor(Math.log(bytes) / Math.log(1024))` for a whole number of bytes, in exact
      arithmetic: the exponent of the largest power of 1024 not above it. */
  function UnitIndex(bytes: nat): (i: nat)
    requires bytes >= 1
    ensures Pow1024(i) <= bytes < Pow1024(i + 1)
  {
    if bytes < 1024 then 0 else 1 + UnitIndex(bytes / 1024)
  }

  /** The exponent is the only one whose power range holds the value. */
  lemma {:induction false} UnitIndexUnique(bytes: nat, i: nat)
    requires bytes >= 1
    requires Pow1024(i) <= bytes < Pow1024(i + 1)
    ensures UnitIndex(bytes) == i
  {
    var j := UnitIndex(bytes);
    if j < i {
      PowMonotone(j + 1, i);
    } else if i < j {
      PowMonotone(i + 1, j);
    }
  }

  lemma {:induction false} PowMonotone(a: nat, b: nat)
    requires a <= b
    ensures Pow1024(a) <= Pow1024(b)
    decreases b - a
  {
    if a < b {
      PowMonotone(a, b - 1);
    }
  }

  /** `sizes[i]`, which is `undefined` past `TB` and for a negative count (whose logarithm is
      `NaN`). */
  function UnitLabel(bytes: int): string
  {
    if bytes >= 1 && UnitIndex(bytes) < |Sizes| then Sizes[UnitIndex(bytes)] else "undefined"
  }

  /** `formatBytes(bytes)`; `amount` is the rendered quotient `parseFloat((bytes /
      1024 ** i).toFixed(dm))`, which is floating-point formatting. */
  function FormatBytes(bytes: int, amount: string): (r: string)
    ensures bytes == 0 ==> r == "0 Bytes"
  {
    if bytes == 0 then "0 Bytes" else amount + " " + UnitLabel(bytes)
  }

  /** Below 1024^5 the unit is the largest of Bytes, KB, MB, GB and TB whose power of 1024
      does not exceed the count. */
  lemma UnitChoice(bytes: int, i: nat)
    requires 1 <= bytes && i < 5
    requires Pow1024(i) <= bytes < Pow1024(i + 1)
    ensures UnitLabel(bytes) == Sizes[i]
    ensures forall amount :: FormatBytes(bytes, amount) == amount + " " + Sizes[i]
  {
    UnitIndexUnique(bytes, i);
  }

  /** From 1024^5 bytes on there is no unit left. */
  lemma PastTerabytes(bytes: int)
    requires bytes >= Pow1024(5)
    ensures UnitLabel(bytes) == "undefined"
  {
    var i := UnitIndex(bytes);
    if i < 5 {
      PowMonotone(i + 1, 5);
    }
  }
}
