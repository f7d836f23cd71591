/**
 * file_organizer.py: sorts the entries of a download folder into the sub-folders
 * images, data, docs and archive by file extension, and counts the files it moved and the
 * files it left because no category claims their extension.
 *
 * The folder listing and the outcome of each `shutil.move` are parameters; the model
 * returns the moves it attempts and the two counters the summary prints.
 */
module FileOrganizer {
  import opened Wrappers
  import opened Text

  /** The keys of FILE_CATEGORIES, in the order the dictionary lists them. */
  datatype Category = Images | Data | Docs | Archive

  const Order: seq<Category> := [Images, Data, Docs, Archive]

  /** The folder name of a category. */
  function Folder(c: Category): string {
    match c
    case Images => "images"
    case Data => "data"
    case Docs => "docs"
    case Archive => "archive"
  }

  /** The extensions FILE_CATEGORIES lists for a category, each with its dot. */
  function Extensions(c: Category): seq<string> {
    match c
    case Images => [".jpg", ".jpeg"]
    case Data => [".csv", ".xlsx"]
    case Docs => [".txt", ".doc", ".pdf"]
    case Archive => [".zip"]
  }

  /** The first category of `cs` whose list holds `e`. */
  function FindIn(e: string, cs: seq<Category>): (r: Option<Category>)
    ensures r.Some? ==> r.value in cs && e in Extensions(r.value)
    ensures r.None? ==> forall c :: c in cs ==> e !in Extensions(c)
  {
    if cs == [] then None
    else if e in Extensions(cs[0]) then Some(cs[0])
    else FindIn(e, cs[1..])
  }

  /** get_destination_folder: lower-case the extension, then search the categories in order. */
  function Destination(ext: string): Option<Category> {
    FindIn(Lower(ext), Order)
  }

  /** No extension is listed under two categories. */
  lemma CategoriesDisjoint(c: Category, d: Category, e: string)
    requires e in Extensions(c) && e in Extensions(d)
    ensures c == d
  {
  }

  /**
   * A file goes to category `c` exactly when `c` lists its lower-cased extension; so the
   * answer does not depend on the order of the search.
   */
  lemma DestinationMeans(ext: string, c: Category)
    ensures Destination(ext) == Some(c) <==> Lower(ext) in Extensions(c)
  {
    assert c in Order;
    if Destination(ext) == Some(c) {
    } else if Lower(ext) in Extensions(c) {
      var found := Destination(ext).value;
      CategoriesDisjoint(c, found, Lower(ext));
    }
  }

  /** The lookup ignores case. */
  lemma DestinationIgnoresCase(ext: string)
    ensures Destination(Lower(ext)) == Destination(ext)
  {
    LowerIdempotent(ext);
  }

  /** A file without an extension is never sorted. */
  lemma NoExtensionStays()
    ensures Destination("") == None
  {
    assert Lower("") == "";
  }

  /** Upper-case extensions are sorted like lower-case ones; unknown ones are not. */
  lemma DestinationExamples()
    ensures Destination(".JPG") == Some(Images)
    ensures Destination(".Pdf") == Some(Docs)
    ensures Destination(".tar") == None
  {
    assert Lower(".JPG") == ".jpg";
    assert Lower(".Pdf") == ".pdf";
    assert Lower(".tar") == ".tar";
  }

  // ---------------------------------------------------------------- os.path.splitext

  /** Whether `s[..n]` holds a character other than '.'. */
  predicate NonDotBefore(s: string, n: nat)
    requires n <= |s|
  {
    exists i :: 0 <= i < n && s[i] != '.'
  }

  /** The index of the last '.' of `s`. */
  function LastDot(s: string): (r: Option<nat>)
    ensures r.Some? ==>
      r.value < |s| && s[r.value] == '.' && (forall i :: r.value < i < |s| ==> s[i] != '.')
    ensures r.None? ==> forall i :: 0 <= i < |s| ==> s[i] != '.'
  {
    if s == [] then None
    else if s[|s| - 1] == '.' then Some(|s| - 1)
    else LastDot(s[..|s| - 1])
  }

  /**
   * `os.path.splitext` of a bare file name: the extension runs from the last '.' to the
   * end, unless only dots come before that '.', as in ".profile" or "..".
   */
  function SplitExt(name: string): (r: (string, string))
    ensures r.0 + r.1 == name
    ensures r.1 == [] || (r.1[0] == '.' && forall i :: 1 <= i < |r.1| ==> r.1[i] != '.')
    ensures r.1 != [] ==> NonDotBefore(name, |r.0|)
  {
    var dot := LastDot(name);
    if dot.Some? && NonDotBefore(name, dot.value) then (name[..dot.value], name[dot.value..])
    else (name, "")
  }

  /** The extension is empty only when no '.' follows a character other than '.'. */
  lemma SplitExtEmpty(name: string)
    ensures SplitExt(name).1 == [] <==>
      forall i, j :: 0 <= i < j < |name| && name[j] == '.' ==> name[i] == '.'
  {
    var dot := LastDot(name);
    if SplitExt(name).1 == [] {
      forall i, j | 0 <= i < j < |name| && name[j] == '.'
        ensures name[i] == '.'
      {
        assert dot.Some? && j <= dot.value;
        assert !NonDotBefore(name, dot.value);
      }
    } else {
      var d := dot.value;
      var i :| 0 <= i < d && name[i] != '.';
      assert 0 <= i < d < |name| && name[d] == '.';
    }
  }

  // ---------------------------------------------------------------- organize_files

  /** One name from the folder listing, and whether it is a directory. */
  datatype Entry = Entry(name: string, isDir: bool)

  /** Where a file is headed: None when it stays (a directory, or no category). */
  function Target(e: Entry): Option<Category> {
    if e.isDir then None else Destination(SplitExt(e.name).1)
  }

  predicate Sorted(e: Entry) {
    Target(e).Some?
  }

  /** Files the loop counts as moved: sorted, and the move succeeded. */
  function Moved(es: seq<Entry>, ok: seq<bool>): nat
    requires |ok| == |es|
  {
    if es == [] then 0
    else Moved(es[..|es| - 1], ok[..|ok| - 1]) + (if Sorted(es[|es| - 1]) && ok[|ok| - 1] then 1 else 0)
  }

  /** Files the loop counts as skipped: not directories, and no category. */
  function Skipped(es: seq<Entry>): nat {
    if es == [] then 0
    else Skipped(es[..|es| - 1]) + (if !es[|es| - 1].isDir && !Sorted(es[|es| - 1]) then 1 else 0)
  }

  /** Files whose move was tried and failed. */
  function Failed(es: seq<Entry>, ok: seq<bool>): nat
    requires |ok| == |es|
  {
    if es == [] then 0
    else Failed(es[..|es| - 1], ok[..|ok| - 1]) + (if Sorted(es[|es| - 1]) && !ok[|ok| - 1] then 1 else 0)
  }

  function Files(es: seq<Entry>): nat {
    if es == [] then 0 else Files(es[..|es| - 1]) + (if es[|es| - 1].isDir then 0 else 1)
  }

  /** The moves tried, in listing order: each file with its category. */
  function Attempts(es: seq<Entry>): seq<(string, Category)> {
    if es == [] then []
    else
      var e := es[|es| - 1];
      Attempts(es[..|es| - 1]) + (if Sorted(e) then [(e.name, Target(e).value)] else [])
  }

  /**
   * Every file is moved, skipped or failed, and exactly one of these; directories are none
   * of them. Hence moved + skipped never exceeds the number of files.
   */
  lemma {:induction false} CountsAddUp(es: seq<Entry>, ok: seq<bool>)
    requires |ok| == |es|
    ensures Moved(es, ok) + Skipped(es) + Failed(es, ok) == Files(es)
    ensures Moved(es, ok) + Skipped(es) <= Files(es)
    ensures |Attempts(es)| == Moved(es, ok) + Failed(es, ok)
  {
    if es != [] {
      CountsAddUp(es[..|es| - 1], ok[..|ok| - 1]);
    }
  }

  /** When no move fails, every file is counted once. */
  lemma AllMovesSucceed(es: seq<Entry>, ok: seq<bool>)
    requires |ok| == |es| && forall i :: 0 <= i < |ok| ==> ok[i]
    ensures Moved(es, ok) + Skipped(es) == Files(es)
  {
    NoneFailed(es, ok);
    CountsAddUp(es, ok);
  }

  lemma {:induction false} NoneFailed(es: seq<Entry>, ok: seq<bool>)
    requires |ok| == |es| && forall i :: 0 <= i < |ok| ==> ok[i]
    ensures Failed(es, ok) == 0
  {
    if es != [] {
      NoneFailed(es[..|es| - 1], ok[..|ok| - 1]);
    }
  }

  /** Each attempted move takes a file to the category that lists its extension. */
  lemma {:induction false} AttemptsClassified(es: seq<Entry>, k: nat)
    requires k < |Attempts(es)|
    ensures exists e :: e in es && !e.isDir && e.name == Attempts(es)[k].0
    ensures Lower(SplitExt(Attempts(es)[k].0).1) in Extensions(Attempts(es)[k].1)
  {
    var init := es[..|es| - 1];
    var e := es[|es| - 1];
    if k < |Attempts(init)| {
      AttemptsClassified(init, k);
      assert Attempts(es)[k] == Attempts(init)[k];
      var w :| w in init && !w.isDir && w.name == Attempts(init)[k].0;
      assert w in es;
    } else {
      assert Attempts(es)[k] == (e.name, Target(e).value);
      assert e in es;
    }
  }

  /** What the i-th entry adds to each of the loop's results. */
  lemma Step(es: seq<Entry>, ok: seq<bool>, i: nat)
    requires |ok| == |es| && i < |es|
    ensures Moved(es[..i + 1], ok[..i + 1])
      == Moved(es[..i], ok[..i]) + (if Sorted(es[i]) && ok[i] then 1 else 0)
    ensures Skipped(es[..i + 1]) == Skipped(es[..i]) + (if !es[i].isDir && !Sorted(es[i]) then 1 else 0)
    ensures Attempts(es[..i + 1])
      == Attempts(es[..i]) + (if Sorted(es[i]) then [(es[i].name, Target(es[i]).value)] else [])
  {
    assert es[..i + 1][..i] == es[..i] && ok[..i + 1][..i] == ok[..i];
  }

  /**
   * organize_files over a listing. `folderExists` says whether the download folder exists;
   * `ok[i]` is whether moving the i-th entry succeeds, were it tried.
   */
  method OrganizeFiles(folderExists: bool, listing: seq<Entry>, ok: seq<bool>)
    returns (counts: Option<(nat, nat)>, moves: seq<(string, Category)>)
    requires |ok| == |listing|
    ensures !folderExists ==> counts == None && moves == []
    ensures folderExists ==> counts == Some((Moved(listing, ok), Skipped(listing)))
    ensures folderExists ==> moves == Attempts(listing)
  {
    if !folderExists {
      return None, [];
    }
    var moved, skipped := 0, 0;
    moves := [];
    var i := 0;
    while i < |listing|
      invariant 0 <= i <= |listing|
      invariant moved == Moved(listing[..i], ok[..i]) && skipped == Skipped(listing[..i])
      invariant moves == Attempts(listing[..i])
    {
      Step(listing, ok, i);
      var item := listing[i];
      if item.isDir {
        i := i + 1;
        continue;
      }
      var split := SplitExt(item.name);
      var destination := Destination(split.1);
      assert destination == Target(item);
      if destination.Some? {
        moves := moves + [(item.name, destination.value)];
        if ok[i] {
          moved := moved + 1;
        }
      } else {
        skipped := skipped + 1;
      }
      i := i + 1;
    }
    assert listing[..i] == listing && ok[..i] == ok;
    counts := Some((moved, skipped));
  }
}
