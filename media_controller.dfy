/**
 * The media endpoints that edit the folder tree and the media library:
 * creating folders and media with their defaults, partial updates that only
 * overwrite a field when the incoming value is truthy, and moving a folder
 * under another one unless the target is among its children.
 */
module MediaController {
  import opened Php

  type FolderId = int
  type MediaId = int
  /** A point in time (`new \DateTime()` is a parameter here). */
  type Timestamp = int

  /** A stored folder; `parent` is the tree edge, `children` the folder's in-memory child list. */
  datatype Folder = Folder(
    name: Option<string>,
    internalName: Option<string>,
    rel: Option<string>,
    parent: Option<FolderId>,
    children: seq<FolderId>,
    createdAt: Timestamp,
    updatedAt: Timestamp,
    deleted: bool)

  /** The fields of a folder as posted or put. */
  datatype FolderInput = FolderInput(name: Option<string>, internalName: Option<string>, rel: Option<string>)

  /** What the media manager creates a file from. */
  datatype Upload = FromContent(fileName: Option<string>, content: string) | FromUrl(url: Option<string>)

  /** A stored media item. */
  datatype Media = Media(
    folder: Option<FolderId>,
    name: Option<string>,
    description: Option<string>,
    copyright: Option<string>,
    updatedAt: Timestamp,
    upload: Upload)

  /** The posted or put media fields. */
  datatype MediaModel = MediaModel(
    folderId: Option<int>,
    name: Option<string>,
    url: Option<string>,
    content: Option<string>,
    description: Option<string>,
    copyRight: Option<string>)

  /** A media model as constructed: folder 1, every other field unset. */
  function DefaultMediaModel(): (m: MediaModel)
    ensures m.folderId == Some(1)
    ensures m.name.None? && m.url.None? && m.content.None? && m.description.None? && m.copyRight.None?
  {
    MediaModel(Some(1), None, None, None, None, None)
  }

  /** How an endpoint answers. */
  datatype Response =
    | Ok
    | ValidationFailed(errors: nat)     // 400 with the violation list
    | CannotCreateFile                  // 400 "Could not create a file from the given content."
    | CannotMoveIntoChild               // 400 "Cannot move a folder into its own child."
    | MissingEntity                     // a setter called on a missing entity: a PHP error before any flush

  /** `$repository->find($id)` on folders, as the folder reference an entity stores. */
  function FolderRef(folders: map<FolderId, Folder>, id: FolderId): Option<FolderId> {
    if id in folders then Some(id) else None
  }

  // ---------------------------------------------------------------------
  // Field updates

  /** `putMediaAction` on a found media item: folder, name, description and copyright only when truthy. */
  function PatchMedia(m: Media, model: MediaModel, folders: map<FolderId, Folder>, now: Timestamp): (r: Media)
    ensures r.upload == m.upload && r.updatedAt == now
  {
    m.(folder := if TruthyInt(model.folderId) then FolderRef(folders, model.folderId.value) else m.folder,
       name := if TruthyString(model.name) then model.name else m.name,
       description := if TruthyString(model.description) then model.description else m.description,
       copyright := if TruthyString(model.copyRight) then model.copyRight else m.copyright,
       updatedAt := now)
  }

  /** `putFolderAction` on a found folder: undeleted, touched, and name, internal name and rel only when truthy. */
  function PatchFolder(f: Folder, input: FolderInput, now: Timestamp): (r: Folder)
    ensures r.parent == f.parent && r.children == f.children && r.createdAt == f.createdAt
  {
    f.(updatedAt := now,
       deleted := false,
       name := if TruthyString(input.name) then input.name else f.name,
       internalName := if TruthyString(input.internalName) then input.internalName else f.internalName,
       rel := if TruthyString(input.rel) then input.rel else f.rel)
  }

  /**
   * Each field of a media item either keeps its value or takes the incoming
   * one, and it takes the incoming one exactly when that is truthy.
   */
  lemma PatchMediaFields(m: Media, model: MediaModel, folders: map<FolderId, Folder>, now: Timestamp)
    ensures var r := PatchMedia(m, model, folders, now);
      && (r.name == m.name || r.name == model.name)
      && (r.name != m.name ==> TruthyString(model.name))
      && (TruthyString(model.description) ==> r.description == model.description)
      && (r.description != m.description ==> TruthyString(model.description))
      && (TruthyString(model.name) ==> r.name == model.name)
      && (!TruthyString(model.copyRight) ==> r.copyright == m.copyright)
      && (TruthyString(model.copyRight) ==> r.copyright == model.copyRight)
      && (!TruthyInt(model.folderId) ==> r.folder == m.folder)
      && (TruthyInt(model.folderId) ==> r.folder == FolderRef(folders, model.folderId.value))
  {
  }

  /** A put with every field falsy only moves `updatedAt`. */
  lemma PatchMediaWithNothingTouchesOnly(m: Media, folders: map<FolderId, Folder>, now: Timestamp)
    ensures PatchMedia(m, MediaModel(None, None, None, None, None, None), folders, now) == m.(updatedAt := now)
  {
  }

  /**
   * A put whose model keeps the constructed default folder id moves the media
   * to folder 1 (or to no folder when folder 1 does not exist).
   */
  lemma PatchMediaDefaultModelMovesToFolderOne(m: Media, folders: map<FolderId, Folder>, now: Timestamp)
    ensures PatchMedia(m, DefaultMediaModel(), folders, now).folder == FolderRef(folders, 1)
  {
  }

  /** Putting the same media model twice is the same as putting it once. */
  lemma PatchMediaIdempotent(m: Media, model: MediaModel, folders: map<FolderId, Folder>, now: Timestamp)
    ensures PatchMedia(PatchMedia(m, model, folders, now), model, folders, now) == PatchMedia(m, model, folders, now)
  {
  }

  /** Putting the same folder fields twice is the same as putting them once. */
  lemma PatchFolderIdempotent(f: Folder, input: FolderInput, now: Timestamp)
    ensures PatchFolder(PatchFolder(f, input, now), input, now) == PatchFolder(f, input, now)
  {
  }

  /** A put folder is never deleted afterwards and keeps each field unless the incoming one is truthy. */
  lemma PatchFolderFields(f: Folder, input: FolderInput, now: Timestamp)
    ensures var r := PatchFolder(f, input, now);
      && !r.deleted && r.updatedAt == now
      && (!TruthyString(input.name) ==> r.name == f.name)
      && (!TruthyString(input.internalName) ==> r.internalName == f.internalName)
      && (!TruthyString(input.rel) ==> r.rel == f.rel)
      && (TruthyString(input.name) ==> r.name == input.name)
      && (TruthyString(input.internalName) ==> r.internalName == input.internalName)
      && (TruthyString(input.rel) ==> r.rel == input.rel)
  {
  }

  // ---------------------------------------------------------------------
  // Creation

  /** The folder `postFolderAction` saves. */
  function NewFolder(input: FolderInput, folders: map<FolderId, Folder>, parentId: int, now: Timestamp): (f: Folder)
    ensures f.createdAt == f.updatedAt == now && !f.deleted && f.children == []
    ensures parentId == 0 ==> f.parent == None
    ensures parentId != 0 ==> f.parent == FolderRef(folders, parentId)
    ensures f.parent.Some? ==> f.parent.value == parentId && parentId in folders
    ensures f.name == input.name && f.internalName == input.internalName && f.rel == input.rel
  {
    Folder(input.name, input.internalName, input.rel,
           if parentId != 0 then FolderRef(folders, parentId) else None,
           [], now, now, false)
  }

  /** Non-empty content is uploaded as a file; otherwise the url is used. */
  function UploadOf(model: MediaModel): (u: Upload)
    ensures TruthyString(model.content) ==> u == FromContent(model.name, model.content.value)
    ensures FalsyString(model.content) ==> u == FromUrl(model.url)
  {
    if TruthyString(model.content) then FromContent(model.name, model.content.value) else FromUrl(model.url)
  }

  /** The media `postMediaAction` saves, from what the media manager created. */
  function NewMedia(created: Media, model: MediaModel, folders: map<FolderId, Folder>): (m: Media)
    ensures m.folder == FolderRef(folders, Coalesce(model.folderId, 1))
    ensures model.folderId.None? ==> m.folder == FolderRef(folders, 1)
    ensures m.name == model.name && m.description == model.description && m.copyright == model.copyRight
    ensures m.upload == created.upload && m.updatedAt == created.updatedAt
  {
    created.(folder := FolderRef(folders, Coalesce(model.folderId, 1)),
             name := model.name, description := model.description, copyright := model.copyRight)
  }

  // ---------------------------------------------------------------------
  // The folder tree

  /** Following parents from `x` reaches a root within `fuel` steps. */
  predicate ReachesRoot(folders: map<FolderId, Folder>, x: FolderId, fuel: nat)
    decreases fuel
  {
    x !in folders || folders[x].parent.None? || (fuel > 0 && ReachesRoot(folders, folders[x].parent.value, fuel - 1))
  }

  /** `a` is `x` or one of its ancestors within `fuel` steps. */
  predicate AncestorOrSelf(folders: map<FolderId, Folder>, a: FolderId, x: FolderId, fuel: nat)
    decreases fuel
  {
    x == a || (x in folders && folders[x].parent.Some? && fuel > 0 && AncestorOrSelf(folders, a, folders[x].parent.value, fuel - 1))
  }

  /** The parent edges form a forest: no folder is its own ancestor. */
  ghost predicate Acyclic(folders: map<FolderId, Folder>) {
    forall x | x in folders :: exists n: nat :: ReachesRoot(folders, x, n)
  }

  /** `d` lies in the subtree rooted at `a` (or is `a`). */
  ghost predicate InSubtree(folders: map<FolderId, Folder>, a: FolderId, d: FolderId) {
    exists n: nat :: AncestorOrSelf(folders, a, d, n)
  }

  /** A children list that holds every proper descendant of `a`. */
  ghost predicate CoversDescendants(folders: map<FolderId, Folder>, a: FolderId, children: set<FolderId>) {
    forall d | InSubtree(folders, a, d) && d != a :: d in children
  }

  /** The folders after `setParent` on the original and `addChild` on the target. */
  function Moved(folders: map<FolderId, Folder>, id: FolderId, targetId: FolderId): (r: map<FolderId, Folder>)
    requires id in folders && targetId in folders
    ensures r.Keys == folders.Keys
    ensures r[id].parent == Some(targetId)
    ensures forall x | x in folders && x != id :: r[x].parent == folders[x].parent
    ensures r[targetId].children == folders[targetId].children + [id]
    ensures forall x | x in folders && x != targetId :: r[x].children == folders[x].children
  {
    var reparented := folders[id := folders[id].(parent := Some(targetId))];
    reparented[targetId := reparented[targetId].(children := reparented[targetId].children + [id])]
  }

  lemma {:induction false} ReachesRootMonotone(folders: map<FolderId, Folder>, x: FolderId, n: nat, k: nat)
    requires ReachesRoot(folders, x, n)
    ensures ReachesRoot(folders, x, n + k)
    decreases n
  {
    if x in folders && folders[x].parent.Some? {
      ReachesRootMonotone(folders, folders[x].parent.value, n - 1, k);
    }
  }

  /** Outside the moved subtree, the path to a root is the same before and after the move. */
  lemma {:induction false} MoveKeepsOutsidePaths(folders: map<FolderId, Folder>, id: FolderId, targetId: FolderId,
                                                 y: FolderId, n: nat)
    requires id in folders && targetId in folders
    requires ReachesRoot(folders, y, n)
    requires forall m: nat :: !AncestorOrSelf(folders, id, y, m)
    ensures ReachesRoot(Moved(folders, id, targetId), y, n)
    decreases n
  {
    assert !AncestorOrSelf(folders, id, y, 0);
    if y in folders && folders[y].parent.Some? {
      var z := folders[y].parent.value;
      forall m: nat ensures !AncestorOrSelf(folders, id, z, m) {
        assert !AncestorOrSelf(folders, id, y, m + 1);
      }
      MoveKeepsOutsidePaths(folders, id, targetId, z, n - 1);
    }
  }

  /** Every path to a root gets at most `nt + 1` steps longer, `nt` bounding the target's path. */
  lemma {:induction false} MovePathsStayFinite(folders: map<FolderId, Folder>, id: FolderId, targetId: FolderId,
                                               x: FolderId, m: nat, nt: nat)
    requires id in folders && targetId in folders
    requires ReachesRoot(folders, x, m)
    requires ReachesRoot(Moved(folders, id, targetId), targetId, nt)
    ensures ReachesRoot(Moved(folders, id, targetId), x, m + nt + 1)
    decreases m
  {
    var moved := Moved(folders, id, targetId);
    if x == id {
      ReachesRootMonotone(moved, targetId, nt, m);
    } else if x in folders && folders[x].parent.Some? {
      MovePathsStayFinite(folders, id, targetId, folders[x].parent.value, m - 1, nt);
    }
  }

  /** Moving a folder under a folder outside its subtree keeps the tree free of cycles. */
  lemma MoveOutsideSubtreeKeepsAcyclic(folders: map<FolderId, Folder>, id: FolderId, targetId: FolderId)
    requires Acyclic(folders)
    requires id in folders && targetId in folders
    requires !InSubtree(folders, id, targetId)
    ensures Acyclic(Moved(folders, id, targetId))
  {
    var moved := Moved(folders, id, targetId);
    var nt :| ReachesRoot(folders, targetId, nt);
    MoveKeepsOutsidePaths(folders, id, targetId, targetId, nt);
    forall x | x in moved ensures exists n: nat :: ReachesRoot(moved, x, n) {
      var m :| ReachesRoot(folders, x, m);
      MovePathsStayFinite(folders, id, targetId, x, m, nt);
    }
  }

  /** After a folder is made its own parent, no number of steps from it reaches a root. */
  lemma {:induction false} SelfParentNeverReachesRoot(folders: map<FolderId, Folder>, id: FolderId, n: nat)
    requires id in folders && folders[id].parent == Some(id)
    ensures !ReachesRoot(folders, id, n)
    decreases n
  {
    if n > 0 {
      SelfParentNeverReachesRoot(folders, id, n - 1);
    }
  }

  /**
   * The guard as written lets a folder be moved into itself whenever the
   * children list leaves the folder out (as a list of proper descendants
   * does), and the tree then has a cycle.
   */
  lemma SelfMoveCreatesCycle(folders: map<FolderId, Folder>, id: FolderId)
    requires id in folders
    ensures !Acyclic(Moved(folders, id, id))
  {
    var moved := Moved(folders, id, id);
    forall n: nat ensures !ReachesRoot(moved, id, n) {
      SelfParentNeverReachesRoot(moved, id, n);
    }
  }

  /**
   * With the corrected guard (target neither the folder itself nor among its
   * children) and a children list covering the folder's descendants, an
   * accepted move keeps the tree free of cycles.
   */
  lemma GuardedMoveKeepsAcyclic(folders: map<FolderId, Folder>, id: FolderId, targetId: FolderId, children: set<FolderId>)
    requires Acyclic(folders)
    requires id in folders && targetId in folders
    requires CoversDescendants(folders, id, children)
    requires targetId != id && targetId !in children
    ensures Acyclic(Moved(folders, id, targetId))
  {
    MoveOutsideSubtreeKeepsAcyclic(folders, id, targetId);
  }

  // ---------------------------------------------------------------------
  // The endpoints

  /** The stored folders and media, with the ids the repository assigns next. */
  class MediaLibrary {
    var folders: map<FolderId, Folder>
    var media: map<MediaId, Media>
    var nextFolderId: FolderId
    var nextMediaId: MediaId

    ghost predicate Valid()
      reads this
    {
      (forall id | id in folders :: id < nextFolderId) && (forall id | id in media :: id < nextMediaId)
    }

    constructor (folders: map<FolderId, Folder>, media: map<MediaId, Media>, nextFolderId: FolderId, nextMediaId: MediaId)
      requires (forall id | id in folders :: id < nextFolderId) && (forall id | id in media :: id < nextMediaId)
      ensures Valid()
      ensures this.folders == folders && this.media == media
      ensures this.nextFolderId == nextFolderId && this.nextMediaId == nextMediaId
    {
      this.folders := folders;
      this.media := media;
      this.nextFolderId := nextFolderId;
      this.nextMediaId := nextMediaId;
    }

    /** `POST /folder/{parentId}`: validation errors are a 400; otherwise a new folder is saved. */
    method PostFolderAction(input: FolderInput, validationErrors: nat, now: Timestamp, parentId: int := 0)
      returns (r: Response)
      requires Valid()
      modifies this
      ensures Valid() && media == old(media) && nextMediaId == old(nextMediaId)
      ensures validationErrors > 0 ==> r == ValidationFailed(validationErrors) && folders == old(folders)
                                       && nextFolderId == old(nextFolderId)
      ensures validationErrors == 0 ==> r == Ok && nextFolderId == old(nextFolderId) + 1
      ensures validationErrors == 0 ==>
        folders == old(folders)[old(nextFolderId) := NewFolder(input, old(folders), parentId, now)]
    {
      if validationErrors > 0 {
        return ValidationFailed(validationErrors);
      }
      var folder := Folder(input.name, input.internalName, input.rel, None, [], 0, 0, false);
      if parentId != 0 {
        folder := folder.(parent := FolderRef(folders, parentId));
      }
      folder := folder.(createdAt := now, updatedAt := now, deleted := false);

      folders := folders[nextFolderId := folder];
      nextFolderId := nextFolderId + 1;
      r := Ok;
    }

    /**
     * `POST /media`: validation errors are a 400; otherwise the upload is
     * built (content before url), and when the media manager cannot create
     * a file the answer is a 400 and nothing is saved.
     */
    method PostMediaAction(model: MediaModel, validationErrors: nat, createNew: Upload -> Option<Media>)
      returns (r: Response)
      requires Valid()
      modifies this
      ensures Valid() && folders == old(folders) && nextFolderId == old(nextFolderId)
      ensures validationErrors > 0 ==> r == ValidationFailed(validationErrors)
      ensures validationErrors == 0 && createNew(UploadOf(model)).None? ==> r == CannotCreateFile
      ensures r != Ok ==> media == old(media) && nextMediaId == old(nextMediaId)
      ensures r == Ok <==> validationErrors == 0 && createNew(UploadOf(model)).Some?
      ensures r == Ok ==> nextMediaId == old(nextMediaId) + 1
      ensures r == Ok ==>
        media == old(media)[old(nextMediaId) := NewMedia(createNew(UploadOf(model)).value, model, folders)]
    {
      if validationErrors > 0 {
        return ValidationFailed(validationErrors);
      }
      var folderId := Coalesce(model.folderId, 1);
      var folder := FolderRef(folders, folderId);

      var upload := FromUrl(model.url);
      if TruthyString(model.content) {
        upload := FromContent(model.name, model.content.value);
      }

      var created := createNew(upload);
      if created.None? {
        return CannotCreateFile;
      }
      var item := created.value.(folder := folder, name := model.name, description := model.description,
                                 copyright := model.copyRight);
      media := media[nextMediaId := item];
      nextMediaId := nextMediaId + 1;
      r := Ok;
    }

    /** `PUT /media/{id}`: a partial update of the media item. */
    method PutMediaAction(model: MediaModel, validationErrors: nat, id: MediaId, now: Timestamp)
      returns (r: Response)
      modifies this
      ensures old(Valid()) ==> Valid()
      ensures folders == old(folders) && nextFolderId == old(nextFolderId) && nextMediaId == old(nextMediaId)
      ensures validationErrors > 0 ==> r == ValidationFailed(validationErrors) && media == old(media)
      ensures validationErrors == 0 && id !in old(media) ==> r == MissingEntity && media == old(media)
      ensures validationErrors == 0 && id in old(media) ==>
        r == Ok && media == old(media)[id := PatchMedia(old(media)[id], model, folders, now)]
    {
      if validationErrors > 0 {
        return ValidationFailed(validationErrors);
      }
      if id !in media {
        return MissingEntity;
      }
      var original := media[id];
      if TruthyInt(model.folderId) {
        original := original.(folder := FolderRef(folders, model.folderId.value));
      }
      if TruthyString(model.name) {
        original := original.(name := model.name);
      }
      if TruthyString(model.description) {
        original := original.(description := model.description);
      }
      if TruthyString(model.copyRight) {
        original := original.(copyright := model.copyRight);
      }
      original := original.(updatedAt := now);
      media := media[id := original];
      r := Ok;
    }

    /** `PUT /folder/{id}`: a partial update of the folder. */
    method PutFolderAction(input: FolderInput, validationErrors: nat, id: FolderId, now: Timestamp)
      returns (r: Response)
      modifies this
      ensures old(Valid()) ==> Valid()
      ensures media == old(media) && nextFolderId == old(nextFolderId) && nextMediaId == old(nextMediaId)
      ensures validationErrors > 0 ==> r == ValidationFailed(validationErrors) && folders == old(folders)
      ensures validationErrors == 0 && id !in old(folders) ==> r == MissingEntity && folders == old(folders)
      ensures validationErrors == 0 && id in old(folders) ==>
        r == Ok && folders == old(folders)[id := PatchFolder(old(folders)[id], input, now)]
    {
      if validationErrors > 0 {
        return ValidationFailed(validationErrors);
      }
      if id !in folders {
        return MissingEntity;
      }
      var original := folders[id];
      original := original.(updatedAt := now, deleted := false);
      if TruthyString(input.name) {
        original := original.(name := input.name);
      }
      if TruthyString(input.internalName) {
        original := original.(internalName := input.internalName);
      }
      if TruthyString(input.rel) {
        original := original.(rel := input.rel);
      }
      folders := folders[id := original];
      r := Ok;
    }

    /**
     * `PUT /folder/{id}/{targetId}`, as written: `children` is what the
     * tree repository returns for the original folder (for a missing one,
     * what it returns for no node). An existing target among them is refused
     * with a 400 and nothing changes; a missing folder is an error; otherwise
     * the original's parent becomes the target and the target's children
     * gain the original.
     */
    method MoveFolderAction(id: FolderId, targetId: FolderId, children: set<FolderId>) returns (r: Response)
      modifies this
      ensures old(Valid()) ==> Valid()
      ensures media == old(media) && nextFolderId == old(nextFolderId) && nextMediaId == old(nextMediaId)
      ensures r != Ok ==> folders == old(folders)
      ensures targetId in old(folders) && targetId in children ==> r == CannotMoveIntoChild
      ensures (targetId !in old(folders) || targetId !in children) && (id !in old(folders) || targetId !in old(folders)) ==>
        r == MissingEntity
      ensures r == Ok <==> id in old(folders) && targetId in old(folders) && targetId !in children
      ensures r == Ok ==> folders == Moved(old(folders), id, targetId)
    {
      if targetId in folders && targetId in children {
        return CannotMoveIntoChild;
      }
      if id !in folders || targetId !in folders {
        return MissingEntity;
      }
      folders := folders[id := folders[id].(parent := Some(targetId))];
      folders := folders[targetId := folders[targetId].(children := folders[targetId].children + [id])];
      r := Ok;
    }

    /**
     * The move with a guard that refuses the folder itself as well as its
     * children, so that no folder becomes its own ancestor. When the
     * children list covers the folder's descendants, the tree stays free of
     * cycles.
     */
    method MoveFolderGuarded(id: FolderId, targetId: FolderId, children: set<FolderId>) returns (r: Response)
      modifies this
      ensures old(Valid()) ==> Valid()
      ensures media == old(media) && nextFolderId == old(nextFolderId) && nextMediaId == old(nextMediaId)
      ensures r != Ok ==> folders == old(folders)
      ensures targetId in old(folders) && (targetId in children || targetId == id) ==> r == CannotMoveIntoChild
      ensures r == Ok <==> id in old(folders) && targetId in old(folders) && targetId !in children && targetId != id
      ensures r == Ok ==> folders == Moved(old(folders), id, targetId)
      ensures Acyclic(old(folders)) && CoversDescendants(old(folders), id, children) ==> Acyclic(folders)
    {
      if targetId in folders && (targetId in children || targetId == id) {
        return CannotMoveIntoChild;
      }
      if id !in folders || targetId !in folders {
        return MissingEntity;
      }
      if Acyclic(folders) && CoversDescendants(folders, id, children) {
        GuardedMoveKeepsAcyclic(folders, id, targetId, children);
      }
      folders := Moved(folders, id, targetId);
      r := Ok;
    }
  }
}
