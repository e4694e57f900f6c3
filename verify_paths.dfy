/** scripts/verify_paths.py: which books have a working symlink in the
    books directory, which are referenced by processed chunks, and which
    links are broken. */
module VerifyPaths {
  import opened Common
  import opened Ordering
  import opened ChunkFile

  /** What the filesystem reports for a *.pdf entry of the books
      directory: whether it is a symlink, what it resolves to (or the
      error resolving raised), and whether that target exists and is
      readable. */
  datatype Entry = Entry(isSymlink: bool, target: Result<string>, targetExists: bool, readable: bool)

  /** verify_symlink (lines 14-29): the flag and the details text. */
  function VerifySymlink(e: Entry): (bool, string)
  {
    if !e.isSymlink then (false, "Not a symlink")
    else if e.target.Err? then (false, "Error: " + e.target.error)
    else if !e.targetExists then (false, "Broken link → " + e.target.value)
    else if !e.readable then (false, "No read access → " + e.target.value)
    else (true, "OK → " + e.target.value)
  }

  /** A link is good exactly when all four checks pass. */
  lemma VerifySymlinkIff(e: Entry)
    ensures VerifySymlink(e).0 <==> e.isSymlink && e.target.Ok? && e.targetExists && e.readable
  {
  }

  datatype Status = OK | Unprocessed | Broken | Missing

  /** Lines 90-99. */
  function Classify(valid: bool, referenced: bool): Status
  {
    if valid && referenced then OK
    else if valid then Unprocessed
    else if referenced then Broken
    else Missing
  }

  /** Line 84: a book without an entry counts as invalid, "Missing". */
  function Lookup(links: map<string, Entry>, book: string): (bool, string)
  {
    if book in links then VerifySymlink(links[book]) else (false, "Missing")
  }

  /** Lines 60-68: "<book>.pdf" for the chunks of every readable file. */
  function Referenced(files: seq<StoredFile>): set<string>
  {
    set b | b in BookSet(files) :: b + ".pdf"
  }

  /** The names the symlink table counts as valid (line 113). */
  function ValidNames(links: map<string, Entry>): set<string>
  {
    set n | n in links && VerifySymlink(links[n]).0
  }

  /** One row of the report table. */
  datatype Line = Line(book: string, valid: bool, referenced: bool, details: string, status: Status)

  function LineFor(links: map<string, Entry>, referenced: set<string>, book: string): Line
  {
    var (valid, details) := Lookup(links, book);
    Line(book, valid, book in referenced, details, Classify(valid, book in referenced))
  }

  /** Lines 82-106: a row per book, in order. */
  function Lines(links: map<string, Entry>, referenced: set<string>, books: seq<string>): (r: seq<Line>)
    ensures |r| == |books| && forall i :: 0 <= i < |books| ==> r[i] == LineFor(links, referenced, books[i])
  {
    seq(|books|, i requires 0 <= i < |books| => LineFor(links, referenced, books[i]))
  }

  /** Line 97: the books whose status is Broken, in order. */
  function BrokenOf(links: map<string, Entry>, referenced: set<string>, books: seq<string>): seq<string>
  {
    if books == [] then []
    else
      var head := if LineFor(links, referenced, books[0]).status == Broken then [books[0]] else [];
      head + BrokenOf(links, referenced, books[1..])
  }

  /** Lines 121-125: the broken books that are symlinks get unlinked. */
  function Removable(links: map<string, Entry>, broken: seq<string>): seq<string>
  {
    if broken == [] then []
    else (if broken[0] in links && links[broken[0]].isSymlink then [broken[0]] else []) + Removable(links, broken[1..])
  }

  /** A book is listed as broken exactly when it is referenced and has no
      valid link; the list keeps the order of the books. */
  lemma {:induction false} BrokenExact(links: map<string, Entry>, referenced: set<string>, books: seq<string>)
    requires StrictlyIncreasing(books)
    ensures var broken := BrokenOf(links, referenced, books);
      && StrictlyIncreasing(broken)
      && forall b :: b in broken <==> b in books && b in referenced && !Lookup(links, b).0
  {
    if books != [] {
      assert StrictlyIncreasing(books[1..]);
      BrokenExact(links, referenced, books[1..]);
      var rest := BrokenOf(links, referenced, books[1..]);
      forall j | 0 <= j < |rest| ensures StrLt(books[0], rest[j]) {
        assert rest[j] in books[1..];
      }
    }
  }

  /** What a book gets unlinked for: it was broken, and it is a symlink. */
  lemma {:induction false} RemovableExact(links: map<string, Entry>, broken: seq<string>)
    ensures forall b :: b in Removable(links, broken) <==> b in broken && b in links && links[b].isSymlink
  {
    if broken != [] {
      RemovableExact(links, broken[1..]);
      assert broken == [broken[0]] + broken[1..];
    }
  }

  datatype Report = Report(
    books: seq<string>,
    lines: seq<Line>,
    validLinks: nat,
    broken: seq<string>,
    referencedCount: nat,
    removed: seq<string>)

  /** The whole report for a books directory, the chunk files and the
      --fix flag: all_books (line 79) is the sorted union of the link
      names and the referenced books, and its length is the total. */
  ghost predicate Reports(links: map<string, Entry>, files: seq<StoredFile>, fix: bool, r: Report)
  {
    var referenced := Referenced(files);
    && StrictlyIncreasing(r.books)
    && (forall b :: b in r.books <==> b in links || b in referenced)
    && r.lines == Lines(links, referenced, r.books)
    && r.validLinks == |ValidNames(links)|
    && r.broken == BrokenOf(links, referenced, r.books)
    && r.referencedCount == |referenced|
    && r.removed == (if fix then Removable(links, r.broken) else [])
  }

  /** The valid rows are exactly the valid links. */
  lemma ValidRows(links: map<string, Entry>, referenced: set<string>, books: seq<string>)
    requires forall b :: b in links ==> b in books
    ensures (set l | l in Lines(links, referenced, books) && l.valid :: l.book) == ValidNames(links)
  {
    var lines := Lines(links, referenced, books);
    forall n | n in ValidNames(links) ensures n in (set l | l in lines && l.valid :: l.book) {
      var i :| 0 <= i < |books| && books[i] == n;
      assert lines[i] in lines;
    }
  }

  /** Lines 60-68. */
  method CollectReferenced(files: seq<StoredFile>) returns (referenced: set<string>)
    ensures referenced == Referenced(files)
  {
    referenced := {};
    var i := 0;
    while i < |files|
      invariant i <= |files|
      invariant referenced == Referenced(files[..i])
    {
      ReferencedStep(files, i);
      if files[i].chunks.Ok? {
        referenced := referenced + set b | b in BookPrefix(files[i].chunks.value) :: b + ".pdf";
      }
      i := i + 1;
    }
    assert files[..i] == files;
  }

  lemma ReferencedStep(files: seq<StoredFile>, i: int)
    requires 0 <= i < |files|
    ensures Referenced(files[..i + 1]) == Referenced(files[..i])
      + if files[i].chunks.Ok? then set b | b in BookPrefix(files[i].chunks.value) :: b + ".pdf" else {}
  {
    BookSetStep(files, i);
  }

  /** Lines 82-106. */
  method Tabulate(links: map<string, Entry>, referenced: set<string>, books: seq<string>)
    returns (lines: seq<Line>, broken: seq<string>)
    ensures lines == Lines(links, referenced, books)
    ensures broken == BrokenOf(links, referenced, books)
  {
    lines, broken := [], [];
    var k := 0;
    while k < |books|
      invariant k <= |books|
      invariant lines == Lines(links, referenced, books[..k])
      invariant broken == BrokenOf(links, referenced, books[..k])
    {
      var line := LineFor(links, referenced, books[k]);
      BrokenStep(links, referenced, books, k);
      lines := lines + [line];
      if line.status == Broken {
        broken := broken + [books[k]];
      }
      k := k + 1;
    }
    assert books[..k] == books;
  }

  /** Lines 117-125, with --fix. broken keeps the ascending order of the
      books (BrokenExact), so the `sorted(broken_links)` of line 119 is
      broken itself. */
  method RemoveBroken(links: map<string, Entry>, broken: seq<string>) returns (removed: seq<string>)
    ensures removed == Removable(links, broken)
  {
    removed := [];
    var j := 0;
    while j < |broken|
      invariant j <= |broken|
      invariant removed == Removable(links, broken[..j])
    {
      RemovableStep(links, broken, j);
      if broken[j] in links && links[broken[j]].isSymlink {
        removed := removed + [broken[j]];
      }
      j := j + 1;
    }
    assert broken[..j] == broken;
  }

  /** verify (lines 47-131). */
  method Verify(links: map<string, Entry>, files: seq<StoredFile>, fix: bool) returns (r: Report)
    ensures Reports(links, files, fix, r)
  {
    var referenced := CollectReferenced(files);
    var books := SortedElements(links.Keys + referenced);
    var lines, broken := Tabulate(links, referenced, books);
    var removed: seq<string> := [];
    if fix {
      removed := RemoveBroken(links, broken);
    }
    r := Report(books, lines, |ValidNames(links)|, broken, |referenced|, removed);
  }

  lemma BrokenStep(links: map<string, Entry>, referenced: set<string>, books: seq<string>, k: int)
    requires 0 <= k < |books|
    ensures BrokenOf(links, referenced, books[..k + 1]) ==
      BrokenOf(links, referenced, books[..k]) + if LineFor(links, referenced, books[k]).status == Broken then [books[k]] else []
  {
    assert books[..k + 1] == books[..k] + [books[k]];
    BrokenAppend(links, referenced, books[..k], [books[k]]);
    assert [books[k]][1..] == [];
  }

  lemma {:induction false} BrokenAppend(links: map<string, Entry>, referenced: set<string>, a: seq<string>, b: seq<string>)
    ensures BrokenOf(links, referenced, a + b) == BrokenOf(links, referenced, a) + BrokenOf(links, referenced, b)
  {
    if a == [] {
      assert a + b == b;
    } else {
      assert (a + b)[0] == a[0] && (a + b)[1..] == a[1..] + b;
      BrokenAppend(links, referenced, a[1..], b);
      var head := if LineFor(links, referenced, a[0]).status == Broken then [a[0]] else [];
      AppendAssoc(head, BrokenOf(links, referenced, a[1..]), BrokenOf(links, referenced, b));
    }
  }

  lemma RemovableStep(links: map<string, Entry>, broken: seq<string>, j: int)
    requires 0 <= j < |broken|
    ensures Removable(links, broken[..j + 1]) ==
      Removable(links, broken[..j]) + if broken[j] in links && links[broken[j]].isSymlink then [broken[j]] else []
  {
    assert broken[..j + 1] == broken[..j] + [broken[j]];
    RemovableAppend(links, broken[..j], [broken[j]]);
    assert [broken[j]][1..] == [];
  }

  lemma {:induction false} RemovableAppend(links: map<string, Entry>, a: seq<string>, b: seq<string>)
    ensures Removable(links, a + b) == Removable(links, a) + Removable(links, b)
  {
    if a == [] {
      assert a + b == b;
    } else {
      assert (a + b)[0] == a[0] && (a + b)[1..] == a[1..] + b;
      RemovableAppend(links, a[1..], b);
      var head := if a[0] in links && links[a[0]].isSymlink then [a[0]] else [];
      AppendAssoc(head, Removable(links, a[1..]), Removable(links, b));
    }
  }

  /** What a report says, whatever the inputs: every link and every
      referenced book has a row; the links counted valid are the valid
      rows; the broken books are exactly the referenced books without a
      valid link, in ascending order; and --fix unlinks exactly the
      broken books that are symlinks. */
  lemma ReportFacts(links: map<string, Entry>, files: seq<StoredFile>, fix: bool, r: Report)
    requires Reports(links, files, fix, r)
    ensures forall b :: b in links || b in Referenced(files) <==> exists l :: l in r.lines && l.book == b
    ensures (set l | l in r.lines && l.valid :: l.book) == ValidNames(links)
    ensures r.validLinks == |ValidNames(links)|
    ensures StrictlyIncreasing(r.broken)
    ensures forall b :: b in r.broken <==> b in Referenced(files) && !Lookup(links, b).0
    ensures forall b :: b in r.removed <==> fix && b in r.broken && b in links && links[b].isSymlink
  {
    var referenced := Referenced(files);
    var books := r.books;
    ValidRows(links, referenced, books);
    BrokenExact(links, referenced, books);
    RemovableExact(links, r.broken);
    forall b | b in links || b in referenced ensures exists l :: l in r.lines && l.book == b {
      var i :| 0 <= i < |books| && books[i] == b;
      assert r.lines[i] in r.lines;
    }
  }
}
