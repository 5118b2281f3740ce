# Annotation session of the batch image labelling tool

This project models the bookkeeping core of `ImageLabelingApp` (gui.py). The tool is a
desktop application. A human annotator picks a root directory and walks through its
sub-folders one at a time. Each folder holds some images and a `data.json` record
(title, description, comments, label). The annotator chooses one label per folder.
The label goes into the folder's `data.json` and into the consolidated
`annotations.csv` ledger. Folders already listed in that ledger are skipped the next
time a root is loaded.

The filesystem is represented by values:

- `Folders.Root` holds the names `os.listdir` gives for the root, in enumeration
  order, and a map from the names that are directories to a `Folder`.
- `Root` also holds the rows of `annotations.csv`. A missing file and a header-only
  file are both the empty sequence.
- A `Folder` holds its entry names, except `data.json`, and what it holds under
  `data.json`: nothing, a file that is not valid JSON, or a parsed `Records.Record`.
- `Records.Record` keeps each key as optional. `json.load` keeps whatever keys the file
  had, and `save_annotation` writes the dict back as it is. The defaults are only
  supplied when there is no readable file.

The session is the class `Labeling.Session`. Its fields are the ones gui.py updates in
place:

- `image_folders`, `current_folder_index`, `current_image_index`, `image_list` and
  `json_data`;
- the selected label;
- the (completed, total) pair on the progress display;
- the chosen root (`parent_directory`), with its contents.

Each method of the class models one method of gui.py, except `SelectLabel`, which
stands for the radio buttons' binding to the selected label. A method's postcondition states the whole
new state in terms of the old one. `Valid()` is the invariant every method keeps:

- the folder cursor is in range whenever there are folders;
- the image cursor is in range whenever there are images, and 0 otherwise;
- every listed folder exists in the root.

The list comprehensions of gui.py are pure functions: the sub-directory scan, the
filter against the ledger, and the image-extension filter. `update_csv`'s dict rebuild
is the function `Ledger.UpdateLedger`. The properties the tool relies on are lemmas
about these functions.

Behaviour of the code, stated here because a natural reading would expect otherwise:

- **Progress counts twice.** After a folder move, the total is
  `len(image_folders)` plus the number of ledger keys. A folder labelled in this
  session stays in `image_folders` and is also a ledger key, so it is counted twice.
  With three fresh folders, labelling the first and moving on shows 1/4, not 1/3
  (`RecountAfterFirstLabel`). A 1/3 reading of that scenario does not match the code;
  the model follows the code. Right after a load the two counts agree whenever the
  ledger names only sub-directories of the root (`CountsAgreeAfterLoad`).
- **No save without folders.** `save_annotation` does nothing when `image_folders`
  is empty, so a folder move saves only when there are folders.
- **Missing keys stay missing.** A key missing from a parsed `data.json` is not
  filled in. Only the label is set before the record is written back.
- **Ledger order is kept.** Rewriting `annotations.csv` keeps the order of its rows
  when its names are unique, because Python dicts keep insertion order. A new name
  goes last (`FromRowsKeepsUnique`, `UpdateLedgerOnUnique`).
- **Stale state after an all-annotated load.** Loading a root whose folders are all
  annotated leaves the previous folder cursor, images and record in place. The list
  is empty, so a later `prev_folder` can still step a stale cursor down and recount
  the progress, but it saves nothing. `PrevFolder` states this.
- **Title and comment edits are never saved.** The annotator can edit the title,
  description and comment widgets, but `save_annotation` never reads them back. The
  model therefore has no edit operation, and saving changes only the record's label.

## Model

| member | source | states |
|---|---|---|
| `Records.LoadRecord` | gui.py:156-164 | a stored record is used as parsed; a missing or malformed data.json gives empty title, description, comments and label |
| `Records.ShownLabel` | gui.py:184 | the label put on screen is the record's label, or empty when the record has none |
| `Records.WithLabel` | gui.py:259-260 | the record afterwards carries the selected label and its title, description and comments are unchanged |
| `Records.SaveThenLoad` | gui.py:256-263 | illustration: loading a record saved with a label gives back that record and shows that label (the store is abstract, so this follows from `LoadRecord`'s contract) |
| `Records.RelabelLastWins` | gui.py:259-260 | illustration: labelling twice keeps only the later label; labelling again with the same label changes nothing |
| `Ledger.Upsert` | gui.py:280-281 | after the dict assignment the ledger lists the old names plus this one, and unique names stay unique |
| `Ledger.FromRows` | gui.py:273-278 | reading the rows into a dict lists each name of the file exactly once, with the label of its last row |
| `Ledger.UpdateLedger` | gui.py:271-281 | after update_csv on any file each name is on exactly one row, the names are the old ones plus this one, the name maps to the label and every other name keeps the label of its last row in the file |
| `Ledger.FromRowsRepeat` | gui.py:278 | a repeated name keeps the position of its first row and takes the label of the later one |
| `Ledger.FromRowsFresh` | gui.py:278 | a row with a new name is appended to the dict |
| `Ledger.KeysMatchLookup` | gui.py:226-237 | a name is in the annotated set exactly when the ledger has a row for it |
| `Ledger.UpsertBinds` | gui.py:280-281 | after the assignment the name maps to the new label |
| `Ledger.UpsertKeepsOthers` | gui.py:280-281 | the assignment leaves every other name's label as it was |
| `Ledger.UpsertExistingInPlace` | gui.py:280-288 | a name already present keeps its row position, only its label changes, all other rows are untouched |
| `Ledger.UpsertNewAppends` | gui.py:280-288 | a name not yet present is appended as the last row |
| `Ledger.UpsertTwice` | gui.py:280-281 | two assignments to the same name leave one row with the later label |
| `Ledger.FromRowsKeepsUnique` | gui.py:273-288 | rewriting a ledger whose names are unique gives back the same rows in the same order |
| `Ledger.UpdateLedgerOnUnique` | gui.py:268-288 | on a ledger with unique names, update_csv leaves every other entry unchanged, keeps existing rows in place and appends a new name last |
| `Ledger.UpdateLedgerTwice` | gui.py:268-288 | update_csv twice with the same name equals one call with the later label |
| `Folders.Subfolders` | gui.py:111-112 | the result holds exactly the listed names that are directories |
| `Folders.Unlabelled` | gui.py:125 | the result holds exactly the folders whose name is not annotated |
| `Folders.Lower` | gui.py:154 | lower-casing keeps the length and lower-cases each character |
| `Folders.IsImageName` | gui.py:154 | a name is an image exactly when its last three characters, lower-cased, are png or jpg, or its last four are jpeg or webp |
| `Folders.ImageFiles` | gui.py:153-154 | the image list holds exactly the entries whose lower-cased name ends with png, jpg, jpeg or webp |
| `Folders.RootSubfolders` | gui.py:111-112 | every sub-directory found is a folder of the root, and every listed directory is found |
| `Folders.LoadedFolders` | gui.py:114-125 | image_folders after a load holds exactly the sub-directories whose name is not a ledger key |
| `Folders.SubfoldersKeepOrder` | gui.py:111-112 | the sub-directory scan keeps enumeration order (it distributes over concatenation) |
| `Folders.LoadedFoldersKeepOrder` | gui.py:111-125 | image_folders follows the root's enumeration order: the folders of an earlier part of the listing come first |
| `Folders.Partition` | gui.py:111-125 | every sub-directory is either a ledger key or in the unlabelled list, never both |
| `Folders.UnlabelledKeepsOrder` | gui.py:125 | the unlabelled list keeps enumeration order (the filter distributes over concatenation) |
| `Folders.UnlabelledNoneAnnotated` | gui.py:125 | with an empty ledger the unlabelled list is every sub-directory, in order |
| `Folders.UnlabelledCount` | gui.py:125-129 | on distinct names, unlabelled folders plus annotated ones make up all folders |
| `Folders.SubfoldersDistinct` | gui.py:111-112 | the sub-directories of a listing without repeats have no repeats |
| `Folders.LowerIdempotent` | gui.py:154 | lower-casing twice is lower-casing once |
| `Folders.LowerWithoutUpper` | gui.py:154 | a name without upper-case letters is unchanged by lower-casing |
| `Folders.ImageNameIgnoresCase` | gui.py:154 | the image test gives the same answer for a name and its lower-cased form |
| `Folders.ImageNameExamples` | gui.py:154 | illustration on two names of `IsImageName`'s contract: an upper-case suffix counts and no dot is needed before it |
| `Folders.JsonIsNotImage` | gui.py:153-157 | no name ending in .json, data.json among them, is taken for an image |
| `Folders.ImageFilesKeepOrder` | gui.py:153-154 | the image list keeps enumeration order (the filter distributes over concatenation) |
| `Labeling.LoadProgress` | gui.py:127-130 | the load-time total is 0 exactly when the root has no sub-directory |
| `Labeling.RecountProgress` | gui.py:218-222 | the recounted total is the folder-list length above the completed count |
| `Labeling.CountsAgreeAfterLoad` | gui.py:218-222 | right after a load whose ledger names only sub-directories, the recount equals the load-time progress |
| `Labeling.RecountAfterFirstLabel` | gui.py:218-222 | once one listed folder is labelled on an empty ledger, the recount shows 1 of list length plus 1 |
| `Labeling.SaveToDisk` | gui.py:249-266 | saving writes the record into that folder only, keeps the listing and other folders, and the ledger maps the folder to the label with unique names |
| `Labeling.SavedLabelShownOnReturn` | gui.py:254-266 | a folder saved with a label still loads with that label after another folder is saved |
| `Labeling.Session.constructor` | gui.py:13-93 | at start-up nothing is loaded and the record is an empty dict (lines 13-20), the selected label is empty (line 31), and the progress display shows 0/0 (line 93) |
| `Labeling.Session.SelectLabel` | gui.py:100-102 | choosing a label changes only the selected label |
| `Labeling.Session.GetAnnotatedFolders` | gui.py:226-237 | the result is exactly the set of names with a ledger row |
| `Labeling.Session.UpdateProgress` | gui.py:218-224 | the display shows the ledger-key count over the folder-list length plus that count |
| `Labeling.Session.UpdateCsv` | gui.py:268-288 | the ledger becomes the rewritten dict with the name set to the label; nothing else changes |
| `Labeling.Session.SaveAnnotation` | gui.py:249-266 | with no folders nothing changes; otherwise the record gets the selected label, is written to the current folder, and the ledger maps that folder to the label; the folder list is untouched |
| `Labeling.Session.LoadCurrentFolder` | gui.py:144-169 | with no folders nothing changes; otherwise the session shows the current folder's images from the first, its record with defaults, that record's label, and reports a malformed data.json |
| `Labeling.Session.LoadFolder` | gui.py:104-140 | a cancelled dialog changes nothing; otherwise image_folders is the unlabelled list and progress the load-time count; if the list is empty nothing else changes, else the first folder is shown |
| `Labeling.Session.NextFolder` | gui.py:210-216 | always saves first; moves forward by one, loads that folder and recounts, only when that stays in the list; otherwise the cursor and display stay |
| `Labeling.Session.PrevFolder` | gui.py:202-208 | always saves first; moves back by one, loads and recounts, only when the cursor is above 0; otherwise the cursor and display stay |
| `Labeling.Session.NextImage` | gui.py:244-247 | the image cursor moves forward by one only within the image list; nothing else changes |
| `Labeling.Session.PrevImage` | gui.py:239-242 | the image cursor moves back by one only when above 0; nothing else changes |

## Left out

- Window layout, widgets and their synchronisation (gui.py:36-102, gui.py:171-184) are not modelled. The selected label is a plain field, and the record's other fields are not put into widgets.
- `show_image` (gui.py:186-200) is not modelled: opening and resizing images is the PIL library's job. An image that fails to decode therefore does not appear.
- The dialogs are not modelled as calls. The directory chooser is the `Option<Root>` argument of `LoadFolder`. The message boxes are the `LoadOutcome` and `FolderLoad` values that say which branch was taken.
- The JSON and CSV text encodings (indentation, `ensure_ascii`, quoting, the header row) are not modelled. Both stores are abstract values.
- A `data.json` whose top level is not an object is not modelled. Extra keys beyond title, description, comments and label are not modelled either. A `comments` value that is not a list only affects the display. Field values of other types are not modelled either: `Record.comments` is a list of strings. A `comments` list holding an item that is not a string (`["ok", null]`) makes `"\n".join` raise `TypeError` at gui.py:182, which nothing catches. `load_current_folder` then stops before the selected label is set (gui.py:184) and before the image cursor is reset (gui.py:168). The previous folder's label stays selected, the image cursor may lie past the new image list, and inside a folder move the recount (gui.py:208, gui.py:216) is skipped after the cursor has moved. The next save then writes that stale label into this folder's data.json and the ledger.
- A CSV row with fewer than two columns, which would raise an error in the source, is not modelled. Every ledger row is a (name, label) pair.
- Filesystem errors (permissions, a full disk, files changed by another program during the session) are not modelled. The root changes only through the session's own writes.
- A `data.json` that is not valid UTF-8 is not modelled. `json.load` then raises `UnicodeDecodeError` (gui.py:161-162), which the handler for malformed JSON (gui.py:163) does not catch. `load_current_folder` would stop before the widgets and the image cursor are reset (gui.py:166-168), and a folder move would skip the recount after its cursor had moved. `RecordFile.Malformed` stands only for a file that decodes but is not valid JSON, which gets the defaults.
- Paths are not modelled. Folder and file names stand in for the joined paths that gui.py keeps.
- The floating-point percentage and its two-decimal formatting (gui.py:130, 133, 222, 224) are not modelled. Only the (completed, total) pair is kept; the percentage is 0 when the total is 0.
- `Folders.Lower`: lower-cases ASCII letters only, while Python's `str.lower` also folds other scripts. No non-ASCII letter lower-cases to one of the ASCII letters of png, jpg, jpeg or webp.
