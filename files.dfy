/**
 * The file screen (components/FileManager.tsx): uploads prepend a new item,
 * deletes filter it out, and a click hands the item to the optional
 * `onSelect` callback (the product form's image picker).
 */
module Files {
  import opened Lists
  import opened Types

  /** The browser's `File` as the upload input delivers it. */
  datatype UploadedFile = UploadedFile(name: string, mimeType: string, size: nat)

  /** `file.type.startsWith('image/') ? 'image' : 'document'` */
  function Classify(mimeType: string): (t: FileType)
    ensures t == Image <==> exists rest :: mimeType == "image/" + rest
  {
    if StartsWith(mimeType, "image/") then
      assert mimeType == "image/" + mimeType[6..];
      Image
    else
      assert forall rest :: ("image/" + rest)[..6] == "image/";
      Document
  }

  /**
   * The item an upload creates. The id (`crypto.randomUUID()`), the object URL
   * and the date string come from the browser and are parameters here.
   */
  function NewFileItem(file: UploadedFile, freshId: Id, url: string, date: string): FileItem {
    FileItem(freshId, file.name, Classify(file.mimeType), url, file.size, date)
  }

  /** `[newFile, ...prev]` */
  function Prepend(files: seq<FileItem>, item: FileItem): (r: seq<FileItem>)
    ensures |r| == |files| + 1 && r[0] == item && r[1..] == files
  {
    [item] + files
  }

  /** A prepended fresh id keeps the ids distinct. */
  lemma PrependKeepsDistinct(files: seq<FileItem>, item: FileItem)
    requires Distinct(files, FileId) && forall f :: f in files ==> f.id != item.id
    ensures Distinct(Prepend(files, item), FileId)
  {
    var r := Prepend(files, item);
    forall i, j | 0 <= i < j < |r| ensures r[i].id != r[j].id {
      assert r[j] == files[j - 1];
      if i > 0 {
        assert r[i] == files[i - 1];
      }
    }
  }

  function OtherFile(id: Id): FileItem -> bool {
    (f: FileItem) => f.id != id
  }

  /** `prev.filter(f => f.id !== id)` */
  function RemoveFile(files: seq<FileItem>, id: Id): seq<FileItem> {
    Filter(files, OtherFile(id))
  }

  /** Deleting removes every item with that id, keeps every other one, and changes nothing when the id is absent. */
  lemma RemoveFileSpec(files: seq<FileItem>, id: Id)
    ensures forall f :: f in RemoveFile(files, id) <==> f in files && f.id != id
    ensures (forall f :: f in files ==> f.id != id) ==> RemoveFile(files, id) == files
    ensures forall f: FileItem :: f.id != id ==> multiset(RemoveFile(files, id))[f] == multiset(files)[f]
  {
    forall f | f in files && f.id != id ensures f in RemoveFile(files, id) {
      FilterKeeps(files, OtherFile(id), f);
    }
    forall f: FileItem | f.id != id ensures multiset(RemoveFile(files, id))[f] == multiset(files)[f] {
      FilterMultiplicity(files, OtherFile(id), f);
    }
    if forall f :: f in files ==> f.id != id {
      FilterAllKept(files, OtherFile(id));
    }
  }

  /** Deleting what was just uploaded restores the list as it was before the upload. */
  lemma UploadThenDelete(files: seq<FileItem>, item: FileItem)
    requires forall f :: f in files ==> f.id != item.id
    ensures RemoveFile(Prepend(files, item), item.id) == files
  {
    assert Prepend(files, item) == [item] + files;
    FilterConcat([item], files, OtherFile(item.id));
    FilterAllKept(files, OtherFile(item.id));
  }

  class FileManager {
    /** The list owned by the application shell (`files` / `setFiles`). */
    var files: seq<FileItem>
    /** Whether the parent passed an `onSelect` callback. */
    const hasOnSelect: bool
    /** The `selectMode` prop (default `false`): the picker hides each item's delete button. */
    const selectMode: bool

    ghost predicate Valid()
      reads this
    {
      Distinct(files, FileId)
    }

    constructor (initial: seq<FileItem>, withOnSelect: bool, inSelectMode: bool)
      requires Distinct(initial, FileId)
      ensures Valid()
      ensures files == initial && hasOnSelect == withOnSelect && selectMode == inSelectMode
    {
      files := initial;
      hasOnSelect := withOnSelect;
      selectMode := inSelectMode;
    }

    /** `handleFileUpload`: `chosen` is `e.target.files[0]`, absent when nothing was picked. */
    method HandleFileUpload(chosen: Option<UploadedFile>, freshId: Id, url: string, date: string)
      requires Valid() && freshId != "" && forall f :: f in files ==> f.id != freshId
      modifies this
      ensures Valid()
      ensures chosen.None? ==> files == old(files)
      ensures chosen.Some? ==> files == Prepend(old(files), NewFileItem(chosen.value, freshId, url, date))
    {
      if chosen.Some? {
        var newFile := NewFileItem(chosen.value, freshId, url, date);
        PrependKeepsDistinct(files, newFile);
        files := Prepend(files, newFile);
      }
    }

    /** `deleteFile(id)`, reachable only outside the picker, where the delete button is shown. */
    method DeleteFile(id: Id)
      requires Valid() && !selectMode
      modifies this
      ensures Valid()
      ensures files == RemoveFile(old(files), id)
    {
      FilterDistinct(files, OtherFile(id), FileId);
      files := RemoveFile(files, id);
    }

    /** A click on the item at position `i`: `onSelect && onSelect(file)`. The list itself is left alone. */
    method ClickItem(i: nat) returns (handed: Option<FileItem>)
      requires i < |files|
      ensures handed == if hasOnSelect then Some(files[i]) else None
    {
      handed := if hasOnSelect then Some(files[i]) else None;
    }
  }
}
