/** scripts/fetch_manuals.py: download a fixed list of GNU manuals into
    the manuals directory, keep only files that start like a PDF, and
    link each one into the books directory; the exit status says whether
    every manual made it. */
module FetchManuals {
  import opened Common
  import opened Ordering

  /** Lines 14-23: file name to download URL. */
  const Manuals: map<string, string> := map[
    "emacs_manual.pdf" := "https://www.gnu.org/software/emacs/manual/pdf/emacs.pdf",
    "elisp_manual.pdf" := "https://www.gnu.org/software/emacs/manual/pdf/elisp.pdf",
    "org-mode_manual.pdf" := "https://orgmode.org/org.pdf",
    "guile_manual.pdf" := "https://www.gnu.org/software/guile/manual/guile.pdf",
    "make_manual.pdf" := "https://www.gnu.org/software/make/manual/make.pdf"
  ]

  /** `sorted(MANUALS.items())` (line 96), written out. */
  const ManualItems: seq<(string, string)> := [
    ("elisp_manual.pdf", "https://www.gnu.org/software/emacs/manual/pdf/elisp.pdf"),
    ("emacs_manual.pdf", "https://www.gnu.org/software/emacs/manual/pdf/emacs.pdf"),
    ("guile_manual.pdf", "https://www.gnu.org/software/guile/manual/guile.pdf"),
    ("make_manual.pdf", "https://www.gnu.org/software/make/manual/make.pdf"),
    ("org-mode_manual.pdf", "https://orgmode.org/org.pdf")
  ]

  function Names(items: seq<(string, string)>): (r: seq<string>)
    ensures |r| == |items| && forall i :: 0 <= i < |items| ==> r[i] == items[i].0
  {
    seq(|items|, i requires 0 <= i < |items| => items[i].0)
  }

  /** The file names of ManualItems. */
  const ManualOrder: seq<string> :=
    ["elisp_manual.pdf", "emacs_manual.pdf", "guile_manual.pdf", "make_manual.pdf", "org-mode_manual.pdf"]

  lemma ManualItemsNames()
    ensures Names(ManualItems) == ManualOrder
  {
    var r := Names(ManualItems);
    assert r[0] == ManualOrder[0] && r[1] == ManualOrder[1] && r[2] == ManualOrder[2];
    assert r[3] == ManualOrder[3] && r[4] == ManualOrder[4];
  }

  lemma ManualOrderSorted()
    ensures StrictlyIncreasing(ManualOrder)
  {
    var r := ManualOrder;
    StrLtAt(r[0], r[1], 1);
    assert StrLt(r[1], r[2]) && StrLt(r[2], r[3]) && StrLt(r[3], r[4]);
    ChainIncreasing(r);
  }

  /** The written-out list is the manual table, each entry once, in
      ascending file-name order. */
  lemma ManualItemsSorted()
    ensures StrictlyIncreasing(Names(ManualItems))
    ensures forall n :: n in Names(ManualItems) <==> n in Manuals
    ensures forall i :: 0 <= i < |ManualItems| ==> ManualItems[i].0 in Manuals && Manuals[ManualItems[i].0] == ManualItems[i].1
  {
    ManualItemsNames();
    ManualOrderSorted();
    forall i | 0 <= i < |ManualItems|
      ensures ManualItems[i].0 in Manuals && Manuals[ManualItems[i].0] == ManualItems[i].1
    {
      if i == 0 {} else if i == 1 {} else if i == 2 {} else if i == 3 {} else {}
    }
  }

  /** Every manual's name matches the *.pdf pattern --force removes. */
  lemma ManualNamesArePdfs()
    ensures forall i :: 0 <= i < |ManualItems| ==> IsPdfName(ManualItems[i].0)
  {
    forall i | 0 <= i < |ManualItems| ensures IsPdfName(ManualItems[i].0) {
      if i == 0 {} else if i == 1 {} else if i == 2 {} else if i == 3 {} else {}
    }
  }

  lemma ManualCount()
    ensures |Manuals| == |ManualItems| == 5
  {
  }

  /** The names `sorted` yields for the table's keys are those of
      ManualItems. */
  lemma SortedManuals(names: seq<string>)
    requires StrictlyIncreasing(names) && forall n :: n in names <==> n in Manuals
    ensures names == Names(ManualItems)
  {
    ManualItemsSorted();
    SortedUnique(names, Names(ManualItems));
  }

  /** b'%PDF'. */
  const PdfMagic: seq<Byte> := [0x25, 0x50, 0x44, 0x46]

  /** A file as `open(path, 'rb').read()` sees it: its bytes, or the
      error reading it raises. */
  type File = Result<seq<Byte>>

  /** What a directory holds under a name. */
  function At(files: map<string, File>, name: string): Option<File>
  {
    if name in files then Some(files[name]) else None
  }

  /** is_valid_pdf (lines 40-48): None is a path with nothing behind it,
      where `open` raises. */
  function IsValidPdf(file: Option<File>): (r: bool)
    ensures r <==> file.Some? && file.value.Ok? && |file.value.value| >= 4 && file.value.value[..4] == PdfMagic
  {
    match file
    case None => false
    case Some(Err(_)) => false
    case Some(Ok(c)) =>
      var header := c[..Min(4, |c|)];
      |header| >= |PdfMagic| && header[..|PdfMagic|] == PdfMagic
  }

  /** download_manual (lines 50-78) on the manuals directory: `body` is
      the content of a GET that passed raise_for_status, or the error the
      request raised. The answer is whether a path came back. */
  function Download(manuals: map<string, File>, name: string, body: Result<seq<Byte>>): (r: (map<string, File>, bool))
    ensures r.1 <==> IsValidPdf(At(r.0, name))
    ensures r.1 ==> r.0[name] == body
    ensures !r.1 ==> name !in r.0
    ensures r.0 - {name} == manuals - {name}
  {
    match body
    case Err(_) => (manuals - {name}, false)
    case Ok(c) =>
      var written := manuals[name := Ok(c)];
      if IsValidPdf(At(written, name)) then (written, true)
      else (written - {name}, false)
  }

  /** A download succeeds exactly when the request succeeds and its body
      starts with the PDF magic. */
  lemma DownloadIff(manuals: map<string, File>, name: string, body: Result<seq<Byte>>)
    ensures Download(manuals, name, body).1 <==> IsValidPdf(Some(body))
  {
  }

  /** create_symlink (lines 80-90) on the books directory: `fails` is
      whether mkdir, unlink or symlink_to raised. */
  function Link(links: map<string, string>, name: string, source: string, fails: bool): (r: (map<string, string>, bool))
    ensures r.1 <==> !fails
    ensures r.1 ==> name in r.0 && r.0[name] == source
    ensures !r.1 ==> r.0 == links
    ensures r.0 - {name} == links - {name}
  {
    if fails then (links, false) else (links[name := source], true)
  }

  /** Both directories: the manuals directory's files and the books
      directory's symlinks, each with the path it points to. */
  datatype Disk = Disk(manuals: map<string, File>, links: map<string, string>)

  datatype Tally = Tally(success: nat, skipped: nat, failed: nat)

  /** manual_path.resolve(): the absolute path of a manual. */
  function Source(dir: string, name: string): string
  {
    dir + "/" + name
  }

  /** The linking step shared by both branches (lines 103-106, 114-117). */
  function Linked(d: Disk, t: Tally, name: string, dir: string, fails: bool): (Disk, Tally)
  {
    var l := Link(d.links, name, Source(dir, name), fails);
    (Disk(d.manuals, l.0), if l.1 then t.(success := t.success + 1) else t.(failed := t.failed + 1))
  }

  /** One pass of the loop of process_manuals (lines 97-119). */
  function Handle(d: Disk, t: Tally, name: string, dir: string, body: Result<seq<Byte>>, linkFails: bool): (Disk, Tally)
  {
    if IsValidPdf(At(d.manuals, name)) then
      Linked(d, t.(skipped := t.skipped + 1), name, dir, linkFails)
    else
      var got := Download(d.manuals - {name}, name, body);
      if got.1 then Linked(Disk(got.0, d.links), t, name, dir, linkFails)
      else (Disk(got.0, d.links), t.(failed := t.failed + 1))
  }

  /** The loop of process_manuals over the (file name, URL) pairs. */
  function Run(d: Disk, t: Tally, items: seq<(string, string)>, dir: string,
               fetch: string -> Result<seq<Byte>>, linkFails: string -> bool): (Disk, Tally)
    decreases |items|
  {
    if items == [] then (d, t)
    else
      var h := Handle(d, t, items[0].0, dir, fetch(items[0].1), linkFails(items[0].0));
      Run(h.0, h.1, items[1..], dir, fetch, linkFails)
  }

  /** A manual counts once, as a success or as a failure; it counts as
      skipped as well exactly when a valid PDF was already there, and it
      is a success exactly when its link was made. */
  lemma HandleCounts(d: Disk, t: Tally, name: string, dir: string, body: Result<seq<Byte>>, linkFails: bool)
    ensures var h := Handle(d, t, name, dir, body, linkFails).1;
      && h.success + h.failed == t.success + t.failed + 1
      && h.success >= t.success && h.failed >= t.failed
      && h.skipped == t.skipped + (if IsValidPdf(At(d.manuals, name)) then 1 else 0)
  {
  }

  /** A success leaves a valid PDF in the manuals directory and a link
      to it in the books directory, whatever was there before. */
  lemma HandleSuccess(d: Disk, t: Tally, name: string, dir: string, body: Result<seq<Byte>>, linkFails: bool)
    requires Handle(d, t, name, dir, body, linkFails).1.success > t.success
    ensures var h := Handle(d, t, name, dir, body, linkFails).0;
      && IsValidPdf(At(h.manuals, name))
      && name in h.links && h.links[name] == Source(dir, name)
  {
  }

  /** Only the entries named `name` change. */
  lemma HandleLocal(d: Disk, t: Tally, name: string, dir: string, body: Result<seq<Byte>>, linkFails: bool)
    ensures var h := Handle(d, t, name, dir, body, linkFails).0;
      h.manuals - {name} == d.manuals - {name} && h.links - {name} == d.links - {name}
  {
    if !IsValidPdf(At(d.manuals, name)) {
      assert (d.manuals - {name}) - {name} == d.manuals - {name};
    }
  }

  /** An existing file that is not a valid PDF is removed first: the
      outcome is as if it had never been there (lines 109-111). */
  lemma HandleReplacesInvalid(d: Disk, t: Tally, name: string, dir: string, body: Result<seq<Byte>>, linkFails: bool)
    requires !IsValidPdf(At(d.manuals, name))
    ensures Handle(d, t, name, dir, body, linkFails)
         == Handle(Disk(d.manuals - {name}, d.links), t, name, dir, body, linkFails)
  {
    assert (d.manuals - {name}) - {name} == d.manuals - {name};
  }

  /** Over a run, every manual is a success or a failure, and at most
      every manual is skipped. */
  lemma {:induction false} RunCounts(d: Disk, t: Tally, items: seq<(string, string)>, dir: string,
                                     fetch: string -> Result<seq<Byte>>, linkFails: string -> bool)
    ensures var r := Run(d, t, items, dir, fetch, linkFails).1;
      && r.success + r.failed == t.success + t.failed + |items|
      && t.skipped <= r.skipped <= t.skipped + |items|
      && r.failed >= t.failed
    decreases |items|
  {
    if items != [] {
      var h := Handle(d, t, items[0].0, dir, fetch(items[0].1), linkFails(items[0].0));
      HandleCounts(d, t, items[0].0, dir, fetch(items[0].1), linkFails(items[0].0));
      RunCounts(h.0, h.1, items[1..], dir, fetch, linkFails);
    }
  }

  predicate Distinct(names: seq<string>)
  {
    forall i, j :: 0 <= i < j < |names| ==> names[i] != names[j]
  }

  lemma IncreasingDistinct(names: seq<string>)
    requires StrictlyIncreasing(names)
    ensures Distinct(names)
  {
    forall i, j | 0 <= i < j < |names| ensures names[i] != names[j] {
      if names[i] == names[j] {
        StrLtIrreflexive(names[i]);
      }
    }
  }

  /** A run leaves every name it does not handle alone. */
  lemma {:induction false} RunLocal(d: Disk, t: Tally, items: seq<(string, string)>, dir: string,
                                    fetch: string -> Result<seq<Byte>>, linkFails: string -> bool, n: string)
    requires n !in Names(items)
    ensures var r := Run(d, t, items, dir, fetch, linkFails).0;
      At(r.manuals, n) == At(d.manuals, n) && (n in r.links <==> n in d.links)
      && (n in d.links ==> r.links[n] == d.links[n])
    decreases |items|
  {
    if items != [] {
      var h := Handle(d, t, items[0].0, dir, fetch(items[0].1), linkFails(items[0].0));
      HandleLocal(d, t, items[0].0, dir, fetch(items[0].1), linkFails(items[0].0));
      assert n != Names(items)[0];
      assert n in h.0.manuals <==> n in h.0.manuals - {items[0].0};
      assert n in d.manuals <==> n in d.manuals - {items[0].0};
      assert n in h.0.links <==> n in h.0.links - {items[0].0};
      assert n in d.links <==> n in d.links - {items[0].0};
      assert Names(items[1..]) == Names(items)[1..];
      RunLocal(h.0, h.1, items[1..], dir, fetch, linkFails, n);
    }
  }

  /** A run with no failure leaves every manual valid and linked. */
  lemma {:induction false} RunAllLinked(d: Disk, t: Tally, items: seq<(string, string)>, dir: string,
                                        fetch: string -> Result<seq<Byte>>, linkFails: string -> bool)
    requires Distinct(Names(items))
    requires Run(d, t, items, dir, fetch, linkFails).1.failed == t.failed
    ensures var r := Run(d, t, items, dir, fetch, linkFails).0;
      forall i :: 0 <= i < |items| ==>
        IsValidPdf(At(r.manuals, items[i].0)) && items[i].0 in r.links && r.links[items[i].0] == Source(dir, items[i].0)
    decreases |items|
  {
    if items != [] {
      var name := items[0].0;
      var h := Handle(d, t, name, dir, fetch(items[0].1), linkFails(name));
      var r := Run(d, t, items, dir, fetch, linkFails).0;
      HandleCounts(d, t, name, dir, fetch(items[0].1), linkFails(name));
      RunCounts(h.0, h.1, items[1..], dir, fetch, linkFails);
      HandleSuccess(d, t, name, dir, fetch(items[0].1), linkFails(name));
      assert Names(items[1..]) == Names(items)[1..];
      forall k | 0 <= k < |items[1..]| ensures Names(items[1..])[k] != name {
        assert Names(items)[k + 1] != Names(items)[0];
      }
      RunLocal(h.0, h.1, items[1..], dir, fetch, linkFails, name);
      assert Distinct(Names(items[1..]));
      RunAllLinked(h.0, h.1, items[1..], dir, fetch, linkFails);
      forall i | 0 <= i < |items|
        ensures IsValidPdf(At(r.manuals, items[i].0)) && items[i].0 in r.links && r.links[items[i].0] == Source(dir, items[i].0)
      {
        if i > 0 {
          assert items[i] == items[1..][i - 1];
        }
      }
    }
  }

  /** When none of the names is in the manuals directory, nothing is
      skipped. */
  lemma {:induction false} RunSkipsAbsent(d: Disk, t: Tally, items: seq<(string, string)>, dir: string,
                                          fetch: string -> Result<seq<Byte>>, linkFails: string -> bool)
    requires Distinct(Names(items))
    requires forall i :: 0 <= i < |items| ==> items[i].0 !in d.manuals
    ensures Run(d, t, items, dir, fetch, linkFails).1.skipped == t.skipped
    decreases |items|
  {
    if items != [] {
      var name := items[0].0;
      var h := Handle(d, t, name, dir, fetch(items[0].1), linkFails(name));
      HandleCounts(d, t, name, dir, fetch(items[0].1), linkFails(name));
      HandleLocal(d, t, name, dir, fetch(items[0].1), linkFails(name));
      forall i | 0 <= i < |items[1..]| ensures items[1..][i].0 !in h.0.manuals {
        assert Names(items)[i + 1] != Names(items)[0];
        assert items[1..][i].0 !in d.manuals - {name};
      }
      assert Names(items[1..]) == Names(items)[1..];
      RunSkipsAbsent(h.0, h.1, items[1..], dir, fetch, linkFails);
    }
  }

  class ManualDownloader {
    const manualsDir: string
    const booksDir: string
    const timeout: int
    /** client.get(url) followed by raise_for_status: the body, or the
        error raised. */
    const fetch: string -> Result<seq<Byte>>
    /** Whether create_symlink raises for a file name. */
    const linkFails: string -> bool
    /** The files of manualsDir. */
    var manuals: map<string, File>
    /** The symlinks of booksDir and their targets. */
    var links: map<string, string>

    /** Lines 28-38; the two directories start with what they hold. */
    constructor (manualsDir: string, booksDir: string, timeout: int, fetch: string -> Result<seq<Byte>>,
                 linkFails: string -> bool, manuals: map<string, File>, links: map<string, string>)
      ensures this.manualsDir == manualsDir && this.booksDir == booksDir && this.timeout == timeout
      ensures this.fetch == fetch && this.linkFails == linkFails
      ensures this.manuals == manuals && this.links == links
    {
      this.manualsDir := manualsDir;
      this.booksDir := booksDir;
      this.timeout := timeout;
      this.fetch := fetch;
      this.linkFails := linkFails;
      this.manuals := manuals;
      this.links := links;
    }

    function State(): Disk
      reads this
    {
      Disk(manuals, links)
    }

    /** Lines 40-48. */
    method CheckPdf(name: string) returns (ok: bool)
      ensures ok <==> IsValidPdf(At(manuals, name))
    {
      if name !in manuals {
        return false;
      }
      var file := manuals[name];
      if file.Err? {
        return false;
      }
      var header := file.value[..Min(4, |file.value|)];
      ok := |header| >= 4 && header[..4] == PdfMagic;
    }

    /** Lines 50-78. */
    method DownloadManual(filename: string, url: string) returns (ok: bool)
      modifies this
      ensures (manuals, ok) == Download(old(manuals), filename, fetch(url))
      ensures links == old(links)
    {
      var response := fetch(url);
      if response.Err? {
        manuals := manuals - {filename};
        return false;
      }
      manuals := manuals[filename := Ok(response.value)];
      ok := CheckPdf(filename);
      if !ok {
        manuals := manuals - {filename};
      }
    }

    /** Lines 80-90. */
    method CreateSymlink(filename: string) returns (ok: bool)
      modifies this
      ensures (links, ok) == Link(old(links), filename, Source(manualsDir, filename), linkFails(filename))
      ensures manuals == old(manuals)
    {
      if linkFails(filename) {
        return false;
      }
      links := links[filename := Source(manualsDir, filename)];
      return true;
    }

    /** Lines 92-121. */
    method ProcessManuals() returns (success: nat, skipped: nat, failed: nat)
      modifies this
      ensures (State(), Tally(success, skipped, failed))
           == Run(old(State()), Tally(0, 0, 0), ManualItems, manualsDir, fetch, linkFails)
    {
      var names := SortedElements(Manuals.Keys);
      SortedManuals(names);
      ManualItemsSorted();
      var items := seq(|names|, i requires 0 <= i < |names| => (names[i], Manuals[names[i]]));
      assert items == ManualItems;
      var t := ProcessItems(items);
      success, skipped, failed := t.success, t.skipped, t.failed;
    }

    /** The loop of lines 96-119 over the sorted (file name, URL) pairs. */
    method ProcessItems(items: seq<(string, string)>) returns (t: Tally)
      modifies this
      ensures (State(), t) == Run(old(State()), Tally(0, 0, 0), items, manualsDir, fetch, linkFails)
    {
      t := Tally(0, 0, 0);
      ghost var final := Run(State(), t, items, manualsDir, fetch, linkFails);
      var i := 0;
      while i < |items|
        invariant i <= |items|
        invariant Run(State(), t, items[i..], manualsDir, fetch, linkFails) == final
      {
        assert items[i..][0] == items[i] && items[i..][1..] == items[i + 1..];
        t := ProcessStep(items[i].0, items[i].1, t);
        i := i + 1;
      }
    }

    /** The loop body, lines 97-119. */
    method ProcessStep(filename: string, url: string, before: Tally) returns (t: Tally)
      modifies this
      ensures (State(), t) == Handle(old(State()), before, filename, manualsDir, fetch(url), linkFails(filename))
    {
      t := before;
      var valid := CheckPdf(filename);
      if valid {
        t := t.(skipped := t.skipped + 1);
        var linked := CreateSymlink(filename);
        t := if linked then t.(success := t.success + 1) else t.(failed := t.failed + 1);
        return;
      }
      manuals := manuals - {filename};
      var got := DownloadManual(filename, url);
      if got {
        var linked := CreateSymlink(filename);
        t := if linked then t.(success := t.success + 1) else t.(failed := t.failed + 1);
      } else {
        t := t.(failed := t.failed + 1);
      }
    }
  }

  /** `Path.glob("*.pdf")`. */
  predicate IsPdfName(name: string)
  {
    |name| >= 4 && name[|name| - 4..] == ".pdf"
  }

  /** Lines 140-143: the manuals directory without its *.pdf files. */
  function Forced(manuals: map<string, File>): (r: map<string, File>)
    ensures forall n :: n in r <==> n in manuals && !IsPdfName(n)
    ensures forall n :: n in r ==> r[n] == manuals[n]
  {
    map n | n in manuals && !IsPdfName(n) :: manuals[n]
  }

  /** main (lines 131-160) after the option parsing: the directories it
      leaves and the tally. */
  function Fetch(d: Disk, force: bool, dir: string, fetch: string -> Result<seq<Byte>>, linkFails: string -> bool): (Disk, Tally)
  {
    var start := if force then Disk(Forced(d.manuals), d.links) else d;
    Run(start, Tally(0, 0, 0), ManualItems, dir, fetch, linkFails)
  }

  function ExitCode(t: Tally): int
  {
    if t.failed == 0 then 0 else 1
  }

  /** Lines 131-160. */
  method FetchCommand(manualsDir: string, booksDir: string, timeout: int, force: bool, d: Disk,
                      fetch: string -> Result<seq<Byte>>, linkFails: string -> bool) returns (code: int, after: Disk)
    ensures (after, code) == (Fetch(d, force, manualsDir, fetch, linkFails).0, ExitCode(Fetch(d, force, manualsDir, fetch, linkFails).1))
  {
    var manuals := d.manuals;
    if force {
      manuals := Forced(manuals);
    }
    var downloader := new ManualDownloader(manualsDir, booksDir, timeout, fetch, linkFails, manuals, d.links);
    var success, skipped, failed := downloader.ProcessManuals();
    code := if failed == 0 then 0 else 1;
    after := downloader.State();
  }

  /** Every manual ends as a success or a failure: the two counts add
      up to the five manuals, and skipped is at most five. */
  lemma FetchCounts(d: Disk, force: bool, dir: string, fetch: string -> Result<seq<Byte>>, linkFails: string -> bool)
    ensures var t := Fetch(d, force, dir, fetch, linkFails).1;
      t.success + t.failed == |Manuals| && t.skipped <= |Manuals|
  {
    var start := if force then Disk(Forced(d.manuals), d.links) else d;
    RunCounts(start, Tally(0, 0, 0), ManualItems, dir, fetch, linkFails);
    ManualCount();
  }

  /** The exit status is 0 exactly when every manual succeeded. */
  lemma ExitCodeIff(d: Disk, force: bool, dir: string, fetch: string -> Result<seq<Byte>>, linkFails: string -> bool)
    ensures var t := Fetch(d, force, dir, fetch, linkFails).1;
      ExitCode(t) == 0 <==> t.success == |Manuals|
  {
    FetchCounts(d, force, dir, fetch, linkFails);
  }

  /** After a run that exits with 0, each manual is a valid PDF in the
      manuals directory with its link in the books directory. */
  lemma ExitZeroLinksAll(d: Disk, force: bool, dir: string, fetch: string -> Result<seq<Byte>>, linkFails: string -> bool,
                         n: string)
    requires ExitCode(Fetch(d, force, dir, fetch, linkFails).1) == 0
    requires n in Manuals
    ensures var r := Fetch(d, force, dir, fetch, linkFails).0;
      IsValidPdf(At(r.manuals, n)) && n in r.links && r.links[n] == Source(dir, n)
  {
    var start := if force then Disk(Forced(d.manuals), d.links) else d;
    ManualItemsSorted();
    IncreasingDistinct(Names(ManualItems));
    RunAllLinked(start, Tally(0, 0, 0), ManualItems, dir, fetch, linkFails);
    assert n in Names(ManualItems);
    var i :| 0 <= i < |ManualItems| && Names(ManualItems)[i] == n;
  }

  /** With --force nothing counts as skipped: every manual is fetched
      again. */
  lemma ForceSkipsNothing(d: Disk, dir: string, fetch: string -> Result<seq<Byte>>, linkFails: string -> bool)
    ensures Fetch(d, true, dir, fetch, linkFails).1.skipped == 0
  {
    ManualItemsSorted();
    IncreasingDistinct(Names(ManualItems));
    var start := Disk(Forced(d.manuals), d.links);
    ManualNamesArePdfs();
    RunSkipsAbsent(start, Tally(0, 0, 0), ManualItems, dir, fetch, linkFails);
  }
}
