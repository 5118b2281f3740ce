/**
 * The chosen root directory seen as values: the names `os.listdir` gives, which of
 * them are sub-directories, and the ledger stored beside them. Directory listing and
 * existence checks become lookups in these values.
 */
module Folders {
  import opened Records
  import opened Ledger

  /** One sub-directory: the names of its entries other than data.json, in
      enumeration order, and what it holds under data.json. */
  datatype Folder = Folder(files: seq<string>, record: RecordFile)

  /** The root: its entries in enumeration order, the entries that are directories,
      and the rows of annotations.csv (no rows when the file is absent). */
  datatype Root = Root(listing: seq<string>, folders: map<string, Folder>, ledger: seq<Row>)

  /** No name is listed twice (as `os.listdir` guarantees). */
  predicate Distinct(s: seq<string>) {
    forall i, j :: 0 <= i < j < |s| ==> s[i] != s[j]
  }

  /** The entries of `names` that are directories, in enumeration order. */
  function Subfolders(names: seq<string>, dirs: map<string, Folder>): (r: seq<string>)
    ensures forall d :: d in r <==> d in names && d in dirs
    ensures |r| <= |names|
  {
    if names == [] then []
    else (if names[0] in dirs then [names[0]] else []) + Subfolders(names[1..], dirs)
  }

  /** The folders not listed in the ledger, in the order given. */
  function Unlabelled(folders: seq<string>, annotated: set<string>): (r: seq<string>)
    ensures forall d :: d in r <==> d in folders && d !in annotated
    ensures |r| <= |folders|
  {
    if folders == [] then []
    else (if folders[0] !in annotated then [folders[0]] else []) + Unlabelled(folders[1..], annotated)
  }

  /** ASCII lower-casing of one character. */
  function LowerChar(c: char): char {
    if 'A' <= c <= 'Z' then (c as int - 'A' as int + 'a' as int) as char else c
  }

  /** The name lower-cased character by character. */
  function Lower(s: string): (r: string)
    ensures |r| == |s|
    ensures forall i :: 0 <= i < |s| ==> r[i] == LowerChar(s[i])
  {
    if s == [] then [] else [LowerChar(s[0])] + Lower(s[1..])
  }

  predicate EndsWith(s: string, suffix: string) {
    |suffix| <= |s| && s[|s| - |suffix|..] == suffix
  }

  /** An image file name: lower-cased, it ends with png, jpg, jpeg or webp. No dot is
      needed before the suffix. */
  predicate IsImageName(name: string): (b: bool)
    ensures b <==> ((3 <= |name| && Lower(name[|name| - 3..]) in {"png", "jpg"})
                    || (4 <= |name| && Lower(name[|name| - 4..]) in {"jpeg", "webp"}))
  {
    var l := Lower(name);
    assert 3 <= |name| ==> l[|name| - 3..] == Lower(name[|name| - 3..]);
    assert 4 <= |name| ==> l[|name| - 4..] == Lower(name[|name| - 4..]);
    EndsWith(l, "png") || EndsWith(l, "jpg") || EndsWith(l, "jpeg") || EndsWith(l, "webp")
  }

  /** The image files of a folder, in enumeration order. */
  function ImageFiles(files: seq<string>): (r: seq<string>)
    ensures forall f :: f in r <==> f in files && IsImageName(f)
    ensures |r| <= |files|
  {
    if files == [] then []
    else (if IsImageName(files[0]) then [files[0]] else []) + ImageFiles(files[1..])
  }

  /** The sub-directories of the root. */
  function RootSubfolders(root: Root): (r: seq<string>)
    ensures forall d :: d in r ==> d in root.folders
    ensures forall d :: d in root.listing && d in root.folders ==> d in r
  {
    Subfolders(root.listing, root.folders)
  }

  /** The unlabelled list `load_folder` computes: the sub-directories whose name is not
      a ledger key. */
  function LoadedFolders(root: Root): (r: seq<string>)
    ensures forall d :: d in r <==> d in RootSubfolders(root) && d !in Keys(root.ledger)
  {
    Unlabelled(RootSubfolders(root), Keys(root.ledger))
  }

  /** Every sub-directory is either annotated in the ledger or in the unlabelled list,
      and never both. */
  lemma Partition(root: Root)
    ensures forall d :: d in RootSubfolders(root) ==>
      (d in Keys(root.ledger) <==> d !in LoadedFolders(root))
    ensures forall d :: d in LoadedFolders(root) ==> d in root.folders
  {
  }

  /** The sub-directory scan keeps enumeration order: it distributes over
      concatenation. */
  lemma {:induction false} SubfoldersKeepOrder(a: seq<string>, b: seq<string>, dirs: map<string, Folder>)
    ensures Subfolders(a + b, dirs) == Subfolders(a, dirs) + Subfolders(b, dirs)
  {
    if a == [] {
      assert a + b == b;
    } else {
      assert (a + b)[0] == a[0] && (a + b)[1..] == a[1..] + b;
      SubfoldersKeepOrder(a[1..], b, dirs);
    }
  }

  /** The folders `load_folder` opens follow the root's enumeration order: for a listing
      split into two parts, the folders of the first part come first. */
  lemma LoadedFoldersKeepOrder(root: Root, a: seq<string>, b: seq<string>)
    requires root.listing == a + b
    ensures LoadedFolders(root) ==
      Unlabelled(Subfolders(a, root.folders), Keys(root.ledger)) +
      Unlabelled(Subfolders(b, root.folders), Keys(root.ledger))
  {
    SubfoldersKeepOrder(a, b, root.folders);
    UnlabelledKeepsOrder(Subfolders(a, root.folders), Subfolders(b, root.folders), Keys(root.ledger));
  }

  /** Filtering out annotated folders keeps enumeration order: it distributes over
      concatenation. */
  lemma {:induction false} UnlabelledKeepsOrder(a: seq<string>, b: seq<string>, annotated: set<string>)
    ensures Unlabelled(a + b, annotated) == Unlabelled(a, annotated) + Unlabelled(b, annotated)
  {
    if a == [] {
      assert a + b == b;
    } else {
      assert (a + b)[0] == a[0] && (a + b)[1..] == a[1..] + b;
      UnlabelledKeepsOrder(a[1..], b, annotated);
    }
  }

  /** With no folder annotated, the unlabelled list is the whole list, unchanged. */
  lemma {:induction false} UnlabelledNoneAnnotated(folders: seq<string>, annotated: set<string>)
    requires forall d :: d in folders ==> d !in annotated
    ensures Unlabelled(folders, annotated) == folders
  {
    if folders != [] {
      assert folders == [folders[0]] + folders[1..];
      UnlabelledNoneAnnotated(folders[1..], annotated);
    }
  }

  /** On distinct names, the unlabelled folders plus the annotated ones among them
      make up all of them. */
  lemma {:induction false} UnlabelledCount(folders: seq<string>, annotated: set<string>)
    requires Distinct(folders)
    ensures |Unlabelled(folders, annotated)| + |set d | d in folders && d in annotated| == |folders|
  {
    if folders != [] {
      var head, tail := folders[0], folders[1..];
      assert Distinct(tail) by {
        forall i, j | 0 <= i < j < |tail| ensures tail[i] != tail[j] {
          assert folders[i + 1] != folders[j + 1];
        }
      }
      UnlabelledCount(tail, annotated);
      var inAll := set d | d in folders && d in annotated;
      var inTail := set d | d in tail && d in annotated;
      assert head !in tail by {
        forall i | 0 <= i < |tail| ensures tail[i] != head {
          assert folders[0] != folders[i + 1];
        }
      }
      if head in annotated {
        assert inAll == inTail + {head};
        assert head !in inTail;
      } else {
        assert inAll == inTail;
      }
    }
  }

  /** The sub-directories of distinct entries are distinct. */
  lemma {:induction false} SubfoldersDistinct(names: seq<string>, dirs: map<string, Folder>)
    requires Distinct(names)
    ensures Distinct(Subfolders(names, dirs))
  {
    if names != [] {
      var tail := names[1..];
      assert Distinct(tail) by {
        forall i, j | 0 <= i < j < |tail| ensures tail[i] != tail[j] {
          assert names[i + 1] != names[j + 1];
        }
      }
      SubfoldersDistinct(tail, dirs);
      assert names[0] !in tail by {
        forall i | 0 <= i < |tail| ensures tail[i] != names[0] {
          assert names[0] != names[i + 1];
        }
      }
      var r := Subfolders(tail, dirs);
      if names[0] in dirs {
        forall i, j | 0 <= i < j < |r| + 1 ensures ([names[0]] + r)[i] != ([names[0]] + r)[j] {
          if i == 0 {
            assert ([names[0]] + r)[j] == r[j - 1];
            assert r[j - 1] in r;
          } else {
            assert r[i - 1] != r[j - 1];
          }
        }
      }
    }
  }

  /** Lower-casing twice is lower-casing once. */
  lemma LowerIdempotent(s: string)
    ensures Lower(Lower(s)) == Lower(s)
  {
  }

  /** The image test ignores letter case. */
  lemma ImageNameIgnoresCase(name: string)
    ensures IsImageName(Lower(name)) == IsImageName(name)
  {
    LowerIdempotent(name);
  }

  /** A name without upper-case ASCII letters is its own lower-case form. */
  lemma LowerWithoutUpper(s: string)
    requires forall i :: 0 <= i < |s| ==> !('A' <= s[i] <= 'Z')
    ensures Lower(s) == s
  {
  }

  /** Two names illustrating `IsImageName`'s contract: upper-case suffixes count and no
      dot is needed. */
  lemma ImageNameExamples()
    ensures IsImageName("a.PNG")
    ensures IsImageName("xjpg")
  {
    var upper, plain := "a.PNG", "xjpg";
    assert upper[2..] == "PNG" && plain[1..] == "jpg";
    var l := Lower("PNG");
    assert l[0] == 'p' && l[1] == 'n' && l[2] == 'g';
    assert l == "png";
    LowerWithoutUpper("jpg");
  }

  /** No JSON file is taken for an image, so the record file data.json never is. */
  lemma JsonIsNotImage(name: string)
    requires EndsWith(name, ".json")
    ensures !IsImageName(name)
  {
    var n := |name|;
    assert name[n - 3..] == name[n - 5..][2..] == "son";
    assert name[n - 4..] == name[n - 5..][1..] == "json";
    LowerWithoutUpper("son");
    LowerWithoutUpper("json");
    assert "son"[0] != "png"[0] && "son"[0] != "jpg"[0];
    assert "json"[1] != "jpeg"[1] && "json"[0] != "webp"[0];
  }

  /** The image filter keeps enumeration order: it distributes over concatenation. */
  lemma {:induction false} ImageFilesKeepOrder(a: seq<string>, b: seq<string>)
    ensures ImageFiles(a + b) == ImageFiles(a) + ImageFiles(b)
  {
    if a == [] {
      assert a + b == b;
    } else {
      assert (a + b)[0] == a[0] && (a + b)[1..] == a[1..] + b;
      ImageFilesKeepOrder(a[1..], b);
    }
  }
}
