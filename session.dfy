/**
 * The annotation session of `ImageLabelingApp`: the unlabelled folders of the chosen
 * root, a folder cursor and an image cursor, the record of the current folder and the
 * label the annotator has selected. Widgets, dialogs and image decoding are not
 * modelled; the selected label is a plain field.
 */
module Labeling {
  import opened Wrappers
  import opened Records
  import opened Ledger
  import opened Folders

  /** The progress display as a (completed, total) pair; its percentage is 0 when
      total is 0 and otherwise completed / total. */
  datatype Progress = Progress(completed: nat, total: nat)

  /** Which branch `load_folder` took. */
  datatype LoadOutcome =
    | Cancelled                        // the directory dialog returned nothing
    | AllAnnotated                     // every sub-directory is in the ledger
    | Opened(malformedRecord: bool)    // the first folder was loaded

  /** Which branch `load_current_folder` took. */
  datatype FolderLoad = NoFolder | FolderLoaded(malformedRecord: bool)

  /** Progress as `load_folder` shows it: ledger keys over all sub-directories. */
  function LoadProgress(root: Root): (p: Progress)
    ensures p.total == 0 <==> forall d :: d in root.listing ==> d !in root.folders
  {
    var all := RootSubfolders(root);
    assert all != [] ==> all[0] in root.listing && all[0] in root.folders;
    Progress(|Keys(root.ledger)|, |all|)
  }

  /** Progress as `update_progress` shows it: ledger keys over the in-memory folder
      list plus the ledger keys. */
  function RecountProgress(folders: seq<string>, ledger: seq<Row>): (p: Progress)
    ensures p.completed <= p.total
    ensures p.total - p.completed == |folders|
  {
    var done := |Keys(ledger)|;
    Progress(done, |folders| + done)
  }

  /** Right after loading a root whose ledger names only its own sub-directories, the
      two ways of counting agree. */
  lemma CountsAgreeAfterLoad(root: Root)
    requires Distinct(root.listing)
    requires Keys(root.ledger) <= set d | d in RootSubfolders(root)
    ensures RecountProgress(LoadedFolders(root), root.ledger) == LoadProgress(root)
  {
    var all := RootSubfolders(root);
    var keys := Keys(root.ledger);
    SubfoldersDistinct(root.listing, root.folders);
    UnlabelledCount(all, keys);
    assert (set d | d in all && d in keys) == keys;
  }

  /** They stop agreeing once a folder of the list is labelled: it stays in the list
      and is now also a ledger key, so it is counted twice. */
  lemma RecountAfterFirstLabel(folders: seq<string>, name: string, category: string)
    requires name in folders
    ensures RecountProgress(folders, UpdateLedger([], name, category)) == Progress(1, |folders| + 1)
  {
  }

  /** The root's state after `save_annotation` wrote `rec` into folder `name`'s
      data.json and set `name` to `category` in the ledger. */
  function SaveToDisk(d: Root, name: string, rec: Record, category: string): (d': Root)
    requires name in d.folders
    ensures d'.listing == d.listing && d'.folders.Keys == d.folders.Keys
    ensures d'.folders[name] == Folder(d.folders[name].files, Stored(rec))
    ensures forall other :: other in d.folders && other != name ==> d'.folders[other] == d.folders[other]
    ensures UniqueKeys(d'.ledger) && Lookup(d'.ledger, name) == Some(category)
  {
    Root(d.listing, d.folders[name := d.folders[name].(record := Stored(rec))],
         UpdateLedger(d.ledger, name, category))
  }

  /** A folder saved with a label and then saved past (another folder saved after it)
      loads back with that label: returning to a folder labelled in this session
      shows the saved label. */
  lemma SavedLabelShownOnReturn(d: Root, name: string, rec: Record, category: string,
                                other: string, otherRec: Record, otherCategory: string)
    requires name in d.folders && other in d.folders && other != name
    ensures var saved := SaveToDisk(d, name, WithLabel(rec, category), category);
            var later := SaveToDisk(saved, other, otherRec, otherCategory);
            && LoadRecord(later.folders[name].record) == WithLabel(rec, category)
            && ShownLabel(LoadRecord(later.folders[name].record)) == category
            && Lookup(later.ledger, name) == Some(category)
  {
    var saved := SaveToDisk(d, name, WithLabel(rec, category), category);
    var later := SaveToDisk(saved, other, otherRec, otherCategory);
    FromRowsKeepsUnique(saved.ledger);
    UpsertKeepsOthers(saved.ledger, other, otherCategory, name);
  }

  class Session {
    /** The chosen root directory (`parent_directory`) and its contents. */
    var disk: Root
    /** `image_folders`: the folders left unlabelled when the root was loaded. */
    var imageFolders: seq<string>
    /** `current_folder_index` */
    var folderIndex: nat
    /** `current_image_index` */
    var imageIndex: nat
    /** `image_list`: the image files of the current folder. */
    var imageList: seq<string>
    /** `json_data`: the record of the current folder. */
    var jsonData: Record
    /** The label selected on screen. */
    var selectedLabel: string
    /** The (completed, total) pair last put on the progress display. */
    var progress: Progress

    /** The cursors stay in range: the folder cursor whenever there are folders, the
        image cursor whenever there are images (and is 0 otherwise); every listed
        folder exists in the root. */
    ghost predicate Valid()
      reads this
    {
      && (imageFolders == [] || folderIndex < |imageFolders|)
      && (imageList == [] ==> imageIndex == 0)
      && (imageList != [] ==> imageIndex < |imageList|)
      && (forall f :: f in imageFolders ==> f in disk.folders)
    }

    /** The session shows folder `name`: its images from the first one, its record
        with the defaults applied, and the label that record carries. */
    ghost predicate Shows(name: string)
      reads this
      requires name in disk.folders
    {
      && imageList == ImageFiles(disk.folders[name].files)
      && imageIndex == 0
      && jsonData == LoadRecord(disk.folders[name].record)
      && selectedLabel == ShownLabel(jsonData)
    }

    /** The application at start-up: nothing loaded, progress 0/0. */
    constructor ()
      ensures Valid()
      ensures imageFolders == [] && imageList == [] && folderIndex == 0 && imageIndex == 0
      ensures jsonData == EmptyDocument && selectedLabel == "" && progress == Progress(0, 0)
      ensures disk == Root([], map[], [])
    {
      disk := Root([], map[], []);
      imageFolders := [];
      folderIndex := 0;
      imageIndex := 0;
      imageList := [];
      jsonData := EmptyDocument;
      selectedLabel := "";
      progress := Progress(0, 0);
    }

    /** The annotator picks a label (the radio buttons bound to the selected label). */
    method SelectLabel(category: string)
      requires Valid()
      modifies this`selectedLabel
      ensures Valid() && selectedLabel == category
    {
      selectedLabel := category;
    }

    /** `get_annotated_folders`: the folder names the ledger lists. */
    method GetAnnotatedFolders() returns (annotated: set<string>)
      ensures forall n :: n in annotated <==> Lookup(disk.ledger, n).Some?
      ensures annotated == Keys(disk.ledger)
    {
      annotated := {};
      var rows := disk.ledger;
      for i := 0 to |rows|
        invariant annotated == Keys(rows[..i])
      {
        assert rows[..i + 1] == rows[..i] + [rows[i]];
        annotated := annotated + {rows[i].name};
      }
      assert rows[..|rows|] == rows;
      forall n ensures n in annotated <==> Lookup(disk.ledger, n).Some? {
        KeysMatchLookup(disk.ledger, n);
      }
    }

    /** `update_progress`: recount from the in-memory list and the ledger. */
    method UpdateProgress()
      modifies this`progress
      ensures progress == RecountProgress(imageFolders, disk.ledger)
    {
      var completed := GetAnnotatedFolders();
      var total := |imageFolders| + |completed|;
      progress := Progress(|completed|, total);
    }

    /** `update_csv`: read the ledger into a dict, set `name` to `category`, write it
        back. */
    method UpdateCsv(name: string, category: string)
      modifies this`disk
      ensures disk == old(disk).(ledger := UpdateLedger(old(disk.ledger), name, category))
      ensures UniqueKeys(disk.ledger) && Lookup(disk.ledger, name) == Some(category)
    {
      var rows := disk.ledger;
      var data: seq<Row> := [];
      for i := 0 to |rows|
        invariant data == FromRows(rows[..i])
      {
        assert rows[..i + 1][..i] == rows[..i];
        data := Upsert(data, rows[i].name, rows[i].category);
      }
      assert rows[..|rows|] == rows;
      data := Upsert(data, name, category);
      disk := disk.(ledger := data);
    }

    /** `save_annotation`: with a folder loaded, store the selected label in its record,
        write the record, and set the label in the ledger. */
    method SaveAnnotation()
      requires Valid()
      modifies this`jsonData, this`disk
      ensures Valid()
      ensures old(imageFolders) == [] ==> jsonData == old(jsonData) && disk == old(disk)
      ensures imageFolders != [] ==>
        && jsonData == WithLabel(old(jsonData), selectedLabel)
        && disk == SaveToDisk(old(disk), imageFolders[folderIndex], jsonData, selectedLabel)
    {
      if imageFolders == [] {
        return;
      }
      var current := imageFolders[folderIndex];
      jsonData := jsonData.(category := Some(selectedLabel));
      disk := disk.(folders := disk.folders[current := disk.folders[current].(record := Stored(jsonData))]);
      UpdateCsv(current, selectedLabel);
    }

    /** `load_current_folder`: list the current folder's images, load its record with
        the defaults when data.json is missing or malformed, show the record's label,
        and go to the first image. */
    method LoadCurrentFolder() returns (status: FolderLoad)
      requires Valid()
      modifies this`imageList, this`jsonData, this`selectedLabel, this`imageIndex
      ensures Valid()
      ensures imageFolders == [] ==> status == NoFolder && unchanged(this)
      ensures imageFolders != [] ==>
        && Shows(imageFolders[folderIndex])
        && status == FolderLoaded(disk.folders[imageFolders[folderIndex]].record.Malformed?)
    {
      if imageFolders == [] {
        return NoFolder;
      }
      var folder := disk.folders[imageFolders[folderIndex]];
      imageList := ImageFiles(folder.files);
      jsonData := DefaultRecord;
      var malformed := false;
      match folder.record {
        case Absent =>
        case Malformed =>
          malformed := true;  // the error dialog; the defaults stay
        case Stored(rec) =>
          jsonData := rec;
      }
      selectedLabel := ShownLabel(jsonData);
      imageIndex := 0;
      status := FolderLoaded(malformed);
    }

    /** `load_folder`: take the chosen root, keep the sub-directories the ledger does
        not list, show the load-time progress, and open the first of them if any. */
    method LoadFolder(chosen: Option<Root>) returns (outcome: LoadOutcome)
      requires Valid()
      modifies this
      ensures Valid()
      ensures chosen.None? ==> outcome == Cancelled && unchanged(this)
      ensures chosen.Some? ==>
        && disk == chosen.value
        && imageFolders == LoadedFolders(chosen.value)
        && progress == LoadProgress(chosen.value)
      ensures chosen.Some? && imageFolders == [] ==>
        && outcome == AllAnnotated
        && folderIndex == old(folderIndex) && imageIndex == old(imageIndex)
        && imageList == old(imageList) && jsonData == old(jsonData)
        && selectedLabel == old(selectedLabel)
      ensures chosen.Some? && imageFolders != [] ==>
        && folderIndex == 0
        && Shows(imageFolders[0])
        && outcome == Opened(disk.folders[imageFolders[0]].record.Malformed?)
    {
      if chosen.None? {
        return Cancelled;
      }
      var root := chosen.value;
      disk := root;
      var all := RootSubfolders(root);
      var annotated := GetAnnotatedFolders();
      imageFolders := Unlabelled(all, annotated);
      progress := Progress(|annotated|, |all|);
      if imageFolders == [] {
        return AllAnnotated;
      }
      folderIndex := 0;
      var status := LoadCurrentFolder();
      outcome := Opened(status.malformedRecord);
    }

    /** `next_folder`: save, then move to the next folder only if there is one. */
    method NextFolder()
      requires Valid()
      modifies this
      ensures Valid()
      ensures imageFolders == old(imageFolders)
      ensures old(imageFolders) != [] ==> disk == SaveToDisk(old(disk), old(imageFolders[folderIndex]),
                                                             WithLabel(old(jsonData), old(selectedLabel)), old(selectedLabel))
      ensures folderIndex == if old(folderIndex) < |imageFolders| - 1 then old(folderIndex) + 1 else old(folderIndex)
      ensures old(folderIndex) < |imageFolders| - 1 ==>
        && Shows(imageFolders[folderIndex])
        && progress == RecountProgress(imageFolders, disk.ledger)
      ensures old(folderIndex) >= |imageFolders| - 1 ==>
        && (old(imageFolders) != [] ==> jsonData == WithLabel(old(jsonData), old(selectedLabel)))
        && (old(imageFolders) == [] ==> jsonData == old(jsonData) && disk == old(disk))
        && selectedLabel == old(selectedLabel) && progress == old(progress)
        && imageList == old(imageList) && imageIndex == old(imageIndex)
    {
      SaveAnnotation();
      if folderIndex < |imageFolders| - 1 {
        folderIndex := folderIndex + 1;
        var _ := LoadCurrentFolder();
        UpdateProgress();
      }
    }

    /** `prev_folder`: save, then move to the previous folder only if the cursor is
        above 0. With no folders the save does nothing, but a cursor left above 0 by an
        earlier root still steps down and the progress is recounted. */
    method PrevFolder()
      requires Valid()
      modifies this
      ensures Valid()
      ensures imageFolders == old(imageFolders)
      ensures old(imageFolders) != [] ==> disk == SaveToDisk(old(disk), old(imageFolders[folderIndex]),
                                                             WithLabel(old(jsonData), old(selectedLabel)), old(selectedLabel))
      ensures old(imageFolders) == [] ==> disk == old(disk)
      ensures folderIndex == if old(folderIndex) > 0 then old(folderIndex) - 1 else old(folderIndex)
      ensures old(folderIndex) > 0 ==> progress == RecountProgress(imageFolders, disk.ledger)
      ensures old(folderIndex) > 0 && imageFolders != [] ==> Shows(imageFolders[folderIndex])
      ensures old(folderIndex) == 0 || imageFolders == [] ==>
        && (old(imageFolders) != [] ==> jsonData == WithLabel(old(jsonData), old(selectedLabel)))
        && (old(imageFolders) == [] ==> jsonData == old(jsonData))
        && selectedLabel == old(selectedLabel)
        && imageList == old(imageList) && imageIndex == old(imageIndex)
      ensures old(folderIndex) == 0 ==> progress == old(progress)
    {
      SaveAnnotation();
      if folderIndex > 0 {
        folderIndex := folderIndex - 1;
        var _ := LoadCurrentFolder();
        UpdateProgress();
      }
    }

    /** `next_image`: step to the next image only if there is one. */
    method NextImage()
      requires Valid()
      modifies this`imageIndex
      ensures Valid()
      ensures imageIndex == if old(imageIndex) < |imageList| - 1 then old(imageIndex) + 1 else old(imageIndex)
    {
      if imageIndex < |imageList| - 1 {
        imageIndex := imageIndex + 1;
      }
    }

    /** `prev_image`: step to the previous image only if the cursor is above 0. */
    method PrevImage()
      requires Valid()
      modifies this`imageIndex
      ensures Valid()
      ensures imageIndex == if old(imageIndex) > 0 then old(imageIndex) - 1 else old(imageIndex)
    {
      if imageIndex > 0 {
        imageIndex := imageIndex - 1;
      }
    }
  }
}
