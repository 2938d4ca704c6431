/** The catalog of stored objects: one record per uploaded object with its
    display name, storage key, upload time, nullable owner and the set of
    users it is shared with, plus the serializer that exposes a record
    together with an `is_owner` flag for the requesting user. */
module ObjectCatalog {
  import opened Wrappers

  type UserId = nat

  /** Column widths declared on the model and by migration 0004. */
  const NameMaxLength: nat := 100
  const KeyMaxLength: nat := 100
  const FileTypeMaxLength: nat := 20
  const MimeTypeMaxLength: nat := 50

  /** The values migration 0004 writes into rows that existed before it. */
  const DefaultFileType: string := "others"
  const DefaultMimeType: string := "N/A"

  /** A row as `AppObject` declares it, before migration 0004. */
  datatype LegacyObject = LegacyObject(id: nat, name: string, objectKey: string, uploadedAt: int,
                                       owner: Option<UserId>, sharedWith: set<UserId>)

  /** A row after migration 0004 added `file_type` and `mime_type`. */
  datatype AppObject = AppObject(id: nat, name: string, objectKey: string, uploadedAt: int,
                                 owner: Option<UserId>, sharedWith: set<UserId>,
                                 fileType: string, mimeType: string)

  /** Every character column fits its declared `max_length`. No column is
      declared unique: two rows may carry the same `object_key`. */
  predicate FitsColumns(o: AppObject)
    ensures FitsColumns(o) ==> |o.name| <= 100 && |o.objectKey| <= 100
    ensures FitsColumns(o) ==> |o.fileType| <= 20 && |o.mimeType| <= 50
  {
    |o.name| <= NameMaxLength && |o.objectKey| <= KeyMaxLength
    && |o.fileType| <= FileTypeMaxLength && |o.mimeType| <= MimeTypeMaxLength
  }

  /** A new row: `uploaded_at` takes the clock reading `now` (`auto_now_add`)
      and the object is shared with nobody yet. */
  function Create(id: nat, name: string, objectKey: string, owner: Option<UserId>,
                  fileType: string, mimeType: string, now: int): (o: AppObject)
    ensures o.uploadedAt == now && o.sharedWith == {}
    ensures o.id == id && o.name == name && o.objectKey == objectKey && o.owner == owner
    ensures o.fileType == fileType && o.mimeType == mimeType
  {
    AppObject(id, name, objectKey, now, owner, {}, fileType, mimeType)
  }

  /** Migration 0004 applied to an existing row: the new columns take their
      one-off defaults and every other column is kept. */
  function Backfill(o: LegacyObject): (n: AppObject)
    ensures n.id == o.id && n.name == o.name && n.objectKey == o.objectKey
    ensures n.uploadedAt == o.uploadedAt && n.owner == o.owner && n.sharedWith == o.sharedWith
    ensures n.fileType == "others" && n.mimeType == "N/A"
    ensures |o.name| <= NameMaxLength && |o.objectKey| <= KeyMaxLength ==> FitsColumns(n)
  {
    AppObject(o.id, o.name, o.objectKey, o.uploadedAt, o.owner, o.sharedWith,
              DefaultFileType, DefaultMimeType)
  }

  /** `__str__`: the display form of an object. */
  function Display(o: AppObject): (s: string)
    ensures s == o.name
  {
    o.name
  }

  /** The effect on one row of deleting user `u`: an owner `u` becomes null
      (`on_delete=SET_NULL`) and the grant to `u` disappears with its row in
      the `shared_with` join table. */
  function OnUserDeleted(o: AppObject, u: UserId): (n: AppObject)
    ensures n.owner == (if o.owner == Some(u) then None else o.owner)
    ensures n.sharedWith == o.sharedWith - {u}
    ensures n.id == o.id && n.name == o.name && n.objectKey == o.objectKey
    ensures n.uploadedAt == o.uploadedAt && n.fileType == o.fileType && n.mimeType == o.mimeType
  {
    o.(owner := if o.owner == Some(u) then None else o.owner, sharedWith := o.sharedWith - {u})
  }

  /** Deleting user `u` from the whole catalog: every row is kept, in place. */
  function DeleteUser(catalog: seq<AppObject>, u: UserId): (c: seq<AppObject>)
    ensures |c| == |catalog|
    ensures forall i :: 0 <= i < |c| ==> c[i] == OnUserDeleted(catalog[i], u)
  {
    if |catalog| == 0 then []
    else [OnUserDeleted(catalog[0], u)] + DeleteUser(catalog[1..], u)
  }

  /** After the deletion no row refers to `u`, and every row that did not
      belong to `u` keeps its owner. */
  lemma DeleteUserRemovesReferences(catalog: seq<AppObject>, u: UserId)
    ensures forall o :: o in DeleteUser(catalog, u) ==> o.owner != Some(u) && u !in o.sharedWith
    ensures forall i :: 0 <= i < |catalog| && catalog[i].owner != Some(u) ==>
      DeleteUser(catalog, u)[i].owner == catalog[i].owner
    ensures forall i :: 0 <= i < |catalog| && catalog[i].owner == Some(u) ==>
      DeleteUser(catalog, u)[i].owner.None?
  {
  }

  /** No object is deleted with its owner: the same rows, identified by id and
      key, with the same names and upload times, remain. */
  lemma {:induction false} DeleteUserKeepsObjects(catalog: seq<AppObject>, u: UserId)
    ensures Ids(DeleteUser(catalog, u)) == Ids(catalog)
    ensures forall i :: 0 <= i < |catalog| ==>
      var n := DeleteUser(catalog, u)[i];
      n.objectKey == catalog[i].objectKey && Display(n) == Display(catalog[i])
      && n.uploadedAt == catalog[i].uploadedAt
  {
    if |catalog| > 0 {
      DeleteUserKeepsObjects(catalog[1..], u);
      assert DeleteUser(catalog, u)[1..] == DeleteUser(catalog[1..], u);
    }
  }

  /** The ids of the rows of a catalog, in order. */
  function Ids(catalog: seq<AppObject>): (ids: seq<nat>)
    ensures |ids| == |catalog|
    ensures forall i :: 0 <= i < |catalog| ==> ids[i] == catalog[i].id
  {
    if |catalog| == 0 then [] else [catalog[0].id] + Ids(catalog[1..])
  }

  /** Deleting the same user twice leaves the catalog as the first deletion did. */
  lemma DeleteUserIdempotent(catalog: seq<AppObject>, u: UserId)
    ensures DeleteUser(DeleteUser(catalog, u), u) == DeleteUser(catalog, u)
  {
    var once := DeleteUser(catalog, u);
    assert forall i :: 0 <= i < |once| ==> OnUserDeleted(once[i], u) == once[i];
  }

  /** Deleting a user keeps every row within its column widths. */
  lemma DeleteUserKeepsColumns(catalog: seq<AppObject>, u: UserId)
    requires forall o :: o in catalog ==> FitsColumns(o)
    ensures forall o :: o in DeleteUser(catalog, u) ==> FitsColumns(o)
  {
    var c := DeleteUser(catalog, u);
    forall o | o in c
      ensures FitsColumns(o)
    {
      var i :| 0 <= i < |c| && c[i] == o;
      assert FitsColumns(catalog[i]);
    }
  }

  /** Nothing in the model forbids two rows with one `object_key`. */
  lemma DuplicateKeysAllowed(now: int)
    ensures var a := Create(1, "a.txt", "k", Some(1), "others", "text/plain", now);
            var b := Create(2, "b.txt", "k", Some(2), "others", "text/plain", now);
            FitsColumns(a) && FitsColumns(b) && a.objectKey == b.objectKey && a != b
  {
  }

  /** The authenticated user of a request, or the anonymous user. */
  datatype Principal = Anonymous | Authenticated(id: UserId)

  /** The part of a request the serializer reads. */
  datatype Request = Request(user: Principal)

  /** `get_is_owner`: with no request in the context the flag is false;
      otherwise it is true exactly when the owner is the requesting user. */
  function IsOwner(o: AppObject, request: Option<Request>): (r: bool)
    ensures request.None? ==> !r
    ensures o.owner.None? ==> !r
    ensures r <==> request.Some? && o.owner.Some? && request.value.user == Authenticated(o.owner.value)
  {
    match request
    case None => false
    case Some(req) =>
      match o.owner
      case None => false
      case Some(id) => req.user == Authenticated(id)
  }

  /** Once the owning user is deleted, nobody is the owner of the object any more. */
  lemma NoOwnerAfterOwnerDeleted(o: AppObject, u: UserId, request: Option<Request>)
    requires o.owner == Some(u)
    ensures !IsOwner(OnUserDeleted(o, u), request)
  {
  }

  /** The owner of an object is told so on every request it makes. */
  lemma OwnerSeesOwnership(o: AppObject, u: UserId)
    requires o.owner == Some(u)
    ensures IsOwner(o, Some(Request(Authenticated(u))))
    ensures forall v: UserId :: v != u ==> !IsOwner(o, Some(Request(Authenticated(v))))
    ensures !IsOwner(o, Some(Request(Anonymous)))
  {
  }

  /** The serialized form of a record. */
  datatype ObjectView = ObjectView(objectKey: string, name: string, owner: Option<UserId>,
                                   sharedWith: set<UserId>, uploadedAt: int, isOwner: bool)

  /** `AppObjectSerializer`: the five model fields copied out, and `is_owner`
      computed for the request; `id`, `file_type` and `mime_type` are not exposed. */
  function Serialize(o: AppObject, request: Option<Request>): (v: ObjectView)
    ensures v.objectKey == o.objectKey && v.name == o.name && v.owner == o.owner
    ensures v.sharedWith == o.sharedWith && v.uploadedAt == o.uploadedAt
    ensures v.isOwner <==> request.Some? && o.owner.Some? && request.value.user == Authenticated(o.owner.value)
  {
    ObjectView(o.objectKey, o.name, o.owner, o.sharedWith, o.uploadedAt, IsOwner(o, request))
  }
}
