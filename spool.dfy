/** The spool directory of SpooledBuffer, as data. A directory is the
    sequence of its files in modification-time order (oldest first), which
    is the order `glob` + `sort(key=os.path.getmtime)` lists them in. Writing
    a file (`open(..., 'wb')`) gives it the newest mtime; `os.rename` keeps
    the file's mtime and replaces an existing file of the target name. */
module Spool {
  import opened Wrappers
  import opened Bytes

  /** The file extensions the spool uses: `.tmp` while a record is being
      written, `.amqp` for queued and failed records, `.dstate` for records
      of unsettled deliveries. */
  datatype Ext = Tmp | Amqp | DState

  datatype Name = Name(stem: string, ext: Ext)

  datatype SpoolFile = SpoolFile(name: Name, data: seq<byte>)

  type Directory = seq<SpoolFile>

  function Names(d: Directory): set<Name>
  {
    if d == [] then {} else {d[0].name} + Names(d[1..])
  }

  /** No two files of a directory share a name. */
  predicate Distinct(d: Directory)
  {
    d == [] || (d[0].name !in Names(d[1..]) && Distinct(d[1..]))
  }

  /** The contents of file `n`, if it exists. */
  function Lookup(d: Directory, n: Name): (r: Option<seq<byte>>)
    ensures r.Some? <==> n in Names(d)
  {
    if d == [] then None else if d[0].name == n then Some(d[0].data) else Lookup(d[1..], n)
  }

  /** `os.unlink`: the directory without file `n`, the others in their order. */
  function Remove(d: Directory, n: Name): (r: Directory)
    ensures Names(r) == Names(d) - {n}
    ensures |r| <= |d|
    ensures forall m :: m != n ==> Lookup(r, m) == Lookup(d, m)
  {
    if d == [] then []
    else if d[0].name == n then Remove(d[1..], n)
    else [d[0]] + Remove(d[1..], n)
  }

  /** `glob('*.<ext>')`: the files with extension `e`, oldest first. */
  function Listing(d: Directory, e: Ext): (r: Directory)
    ensures forall f :: f in r <==> f in d && f.name.ext == e
    ensures |r| <= |d|
  {
    if d == [] then []
    else if d[0].name.ext == e then [d[0]] + Listing(d[1..], e)
    else Listing(d[1..], e)
  }

  /** `open(n, 'wb')` + `write(data)`: an existing file of that name is
      replaced, and the file becomes the most recently modified one. */
  function Write(d: Directory, n: Name, data: seq<byte>): (r: Directory)
    ensures Names(r) == Names(d) + {n}
  {
    NamesAppend(Remove(d, n), [SpoolFile(n, data)]);
    Remove(d, n) + [SpoolFile(n, data)]
  }

  /** Every file named `from` is given the name `to`, in place. */
  function Relabel(d: Directory, from: Name, to: Name): (r: Directory)
    ensures |r| == |d|
    ensures forall i :: 0 <= i < |d| ==>
      r[i].data == d[i].data && r[i].name == if d[i].name == from then to else d[i].name
    ensures Names(r) == if from in Names(d) then Names(d) - {from} + {to} else Names(d)
    ensures to !in Names(d) ==> Lookup(r, to) == Lookup(d, from)
  {
    if d == [] then []
    else [if d[0].name == from then SpoolFile(to, d[0].data) else d[0]] + Relabel(d[1..], from, to)
  }

  /** `os.rename(from, to)` of an existing file: a file named `to` is
      replaced, and the renamed file keeps its place in mtime order. */
  function Rename(d: Directory, from: Name, to: Name): (r: Directory)
    requires from in Names(d)
    ensures Names(r) == Names(d) - {from} + {to}
    ensures Lookup(r, to) == Lookup(d, from)
    ensures from != to ==>
      var kept := Remove(d, to);
      |r| == |kept|
      && forall i :: 0 <= i < |kept| ==>
           r[i].data == kept[i].data && r[i].name == if kept[i].name == from then to else kept[i].name
  {
    if from == to then d else Relabel(Remove(d, to), from, to)
  }

  /** The write-`.tmp`-then-rename discipline of SpooledBuffer: write
      `<stem>.tmp`, then rename it to `<stem>.<ext>`. */
  function Stage(d: Directory, stem: string, ext: Ext, data: seq<byte>): (r: Directory)
    ensures ext != Tmp ==> Names(r) == Names(d) - {Name(stem, Tmp)} + {Name(stem, ext)}
  {
    Rename(Write(d, Name(stem, Tmp), data), Name(stem, Tmp), Name(stem, ext))
  }

  // ---- Lemmas -------------------------------------------------------------

  lemma {:induction false} NamesAppend(a: Directory, b: Directory)
    ensures Names(a + b) == Names(a) + Names(b)
  {
    if a == [] {
      assert a + b == b;
    } else {
      assert (a + b)[0] == a[0];
      assert (a + b)[1..] == a[1..] + b;
      NamesAppend(a[1..], b);
    }
  }

  lemma {:induction false} RemoveAppend(a: Directory, b: Directory, n: Name)
    ensures Remove(a + b, n) == Remove(a, n) + Remove(b, n)
  {
    if a == [] {
      assert a + b == b;
    } else {
      assert (a + b)[0] == a[0];
      assert (a + b)[1..] == a[1..] + b;
      RemoveAppend(a[1..], b, n);
    }
  }

  lemma {:induction false} RemoveAbsent(d: Directory, n: Name)
    requires n !in Names(d)
    ensures Remove(d, n) == d
  {
    if d != [] {
      RemoveAbsent(d[1..], n);
    }
  }

  lemma {:induction false} RelabelAppend(a: Directory, b: Directory, from: Name, to: Name)
    ensures Relabel(a + b, from, to) == Relabel(a, from, to) + Relabel(b, from, to)
  {
    if a == [] {
      assert a + b == b;
    } else {
      assert (a + b)[0] == a[0];
      assert (a + b)[1..] == a[1..] + b;
      RelabelAppend(a[1..], b, from, to);
    }
  }

  lemma {:induction false} RelabelAbsent(d: Directory, from: Name, to: Name)
    requires from !in Names(d)
    ensures Relabel(d, from, to) == d
  {
    if d != [] {
      RelabelAbsent(d[1..], from, to);
    }
  }

  lemma {:induction false} ListingAppend(a: Directory, b: Directory, e: Ext)
    ensures Listing(a + b, e) == Listing(a, e) + Listing(b, e)
  {
    if a == [] {
      assert a + b == b;
    } else {
      assert (a + b)[0] == a[0];
      assert (a + b)[1..] == a[1..] + b;
      ListingAppend(a[1..], b, e);
    }
  }

  /** Unlinking a file and then listing is listing and then dropping it. */
  lemma {:induction false} ListingRemove(d: Directory, n: Name, e: Ext)
    ensures Listing(Remove(d, n), e) == Remove(Listing(d, e), n)
  {
    if d != [] {
      ListingRemove(d[1..], n, e);
      if d[0].name != n {
        ListingAppend([d[0]], Remove(d[1..], n), e);
      }
    }
  }

  /** A listing holds no file of another extension. */
  lemma ListingOtherExt(d: Directory, n: Name, e: Ext)
    requires n.ext != e
    ensures n !in Names(Listing(d, e))
    ensures Remove(Listing(d, e), n) == Listing(d, e)
  {
    if n in Names(Listing(d, e)) {
      var f := NamedFile(Listing(d, e), n);
      assert false;
    }
    RemoveAbsent(Listing(d, e), n);
  }

  lemma {:induction false} NamedFileExists(d: Directory, n: Name)
    requires n in Names(d)
    ensures exists f :: f in d && f.name == n
  {
    if d[0].name != n {
      NamedFileExists(d[1..], n);
    }
  }

  ghost function NamedFile(d: Directory, n: Name): (f: SpoolFile)
    requires n in Names(d)
    ensures f in d && f.name == n
  {
    NamedFileExists(d, n);
    var f :| f in d && f.name == n; f
  }

  /** Staging a record amounts to replacing both `<stem>.tmp` and
      `<stem>.<ext>` by one new, newest file `<stem>.<ext>`. */
  lemma StageEffect(d: Directory, stem: string, ext: Ext, data: seq<byte>)
    requires ext != Tmp
    ensures Stage(d, stem, ext, data)
         == Remove(Remove(d, Name(stem, Tmp)), Name(stem, ext)) + [SpoolFile(Name(stem, ext), data)]
  {
    var tmp, dst := Name(stem, Tmp), Name(stem, ext);
    var rest := Remove(d, tmp);
    NamesAppend(rest, [SpoolFile(tmp, data)]);
    RemoveAppend(rest, [SpoolFile(tmp, data)], dst);
    assert [SpoolFile(tmp, data)][1..] == [];
    assert Remove([SpoolFile(tmp, data)], dst) == [SpoolFile(tmp, data)];
    var kept := Remove(rest, dst);
    RelabelAppend(kept, [SpoolFile(tmp, data)], tmp, dst);
    RelabelAbsent(kept, tmp, dst);
    assert Relabel([SpoolFile(tmp, data)], tmp, dst) == [SpoolFile(dst, data)];
  }

  /** Torn-write safety: whatever a `.tmp` file holds, it is not listed
      under any other extension. */
  lemma TmpInvisible(d: Directory, stem: string, data: seq<byte>, e: Ext)
    requires e != Tmp
    ensures Listing(Write(d, Name(stem, Tmp), data), e) == Listing(d, e)
  {
    ListingAppend(Remove(d, Name(stem, Tmp)), [SpoolFile(Name(stem, Tmp), data)], e);
    ListingRemove(d, Name(stem, Tmp), e);
    ListingOtherExt(d, Name(stem, Tmp), e);
  }

  /** Once renamed, a staged record is the newest file of its listing,
      replacing any earlier file of the same name; listings of the other
      extensions are untouched. */
  lemma StageListing(d: Directory, stem: string, ext: Ext, data: seq<byte>, e: Ext)
    requires ext != Tmp && e != Tmp
    ensures Listing(Stage(d, stem, ext, data), e)
         == if e == ext then Remove(Listing(d, e), Name(stem, ext)) + [SpoolFile(Name(stem, ext), data)]
            else Listing(d, e)
  {
    var tmp, dst := Name(stem, Tmp), Name(stem, ext);
    StageEffect(d, stem, ext, data);
    var kept := Remove(Remove(d, tmp), dst);
    ListingAppend(kept, [SpoolFile(dst, data)], e);
    ListingRemove(Remove(d, tmp), dst, e);
    ListingRemove(d, tmp, e);
    ListingOtherExt(d, tmp, e);
    if e != ext {
      ListingOtherExt(Remove(d, tmp), dst, e);
      ListingRemove(d, tmp, e);
    }
  }

  /** In a directory without repeated names, unlinking an existing file
      removes exactly one file. */
  lemma {:induction false} RemoveCount(d: Directory, n: Name)
    requires Distinct(d)
    ensures |Remove(d, n)| == if n in Names(d) then |d| - 1 else |d|
  {
    if d != [] {
      RemoveCount(d[1..], n);
      if d[0].name == n {
        RemoveAbsent(d[1..], n);
      }
    }
  }

  lemma {:induction false} RemoveDistinct(d: Directory, n: Name)
    requires Distinct(d)
    ensures Distinct(Remove(d, n))
  {
    if d != [] {
      RemoveDistinct(d[1..], n);
    }
  }

  lemma {:induction false} ListingDistinct(d: Directory, e: Ext)
    requires Distinct(d)
    ensures Distinct(Listing(d, e))
  {
    if d != [] {
      ListingDistinct(d[1..], e);
      if d[0].name.ext == e && d[0].name in Names(Listing(d[1..], e)) {
        var f := NamedFile(Listing(d[1..], e), d[0].name);
        assert f in d[1..];
        NamedIn(d[1..], f);
      }
    }
  }

  lemma {:induction false} NamedIn(d: Directory, f: SpoolFile)
    requires f in d
    ensures f.name in Names(d)
  {
    if d[0] != f {
      NamedIn(d[1..], f);
    }
  }

  lemma WriteDistinct(d: Directory, n: Name, data: seq<byte>)
    requires Distinct(d)
    ensures Distinct(Write(d, n, data))
  {
    RemoveDistinct(d, n);
    AppendDistinct(Remove(d, n), SpoolFile(n, data));
  }

  lemma {:induction false} AppendDistinct(d: Directory, f: SpoolFile)
    requires Distinct(d) && f.name !in Names(d)
    ensures Distinct(d + [f])
  {
    if d != [] {
      assert (d + [f])[1..] == d[1..] + [f];
      AppendDistinct(d[1..], f);
      NamesAppend(d[1..], [f]);
    }
  }

  lemma StageDistinct(d: Directory, stem: string, ext: Ext, data: seq<byte>)
    requires Distinct(d) && ext != Tmp
    ensures Distinct(Stage(d, stem, ext, data))
  {
    StageEffect(d, stem, ext, data);
    RemoveDistinct(d, Name(stem, Tmp));
    RemoveDistinct(Remove(d, Name(stem, Tmp)), Name(stem, ext));
    AppendDistinct(Remove(Remove(d, Name(stem, Tmp)), Name(stem, ext)), SpoolFile(Name(stem, ext), data));
  }

  /** A staged record can be read back under its final name. */
  lemma StageLookup(d: Directory, stem: string, ext: Ext, data: seq<byte>)
    requires ext != Tmp
    ensures Lookup(Stage(d, stem, ext, data), Name(stem, ext)) == Some(data)
  {
    StageEffect(d, stem, ext, data);
    LookupLast(Remove(Remove(d, Name(stem, Tmp)), Name(stem, ext)), SpoolFile(Name(stem, ext), data));
  }

  lemma {:induction false} LookupLast(d: Directory, f: SpoolFile)
    requires f.name !in Names(d)
    ensures Lookup(d + [f], f.name) == Some(f.data)
  {
    if d != [] {
      assert (d + [f])[1..] == d[1..] + [f];
      LookupLast(d[1..], f);
    }
  }

  /** Rewriting a file is writing it once with the final contents. */
  lemma WriteTwice(d: Directory, n: Name, a: seq<byte>, b: seq<byte>)
    ensures Write(Write(d, n, a), n, b) == Write(d, n, b)
  {
    RemoveAppend(Remove(d, n), [SpoolFile(n, a)], n);
    assert Remove([SpoolFile(n, a)], n) == [];
    RemoveAbsent(Remove(d, n), n);
  }

  lemma {:induction false} RemoveSubset(d: Directory, n: Name, f: SpoolFile)
    requires f in Remove(d, n)
    ensures f in d && f.name != n
  {
    if d[0].name == n || f != d[0] {
      RemoveSubset(d[1..], n, f);
    }
  }

  /** A listing names exactly the files of its extension. */
  lemma {:induction false} ListingNames(d: Directory, n: Name, e: Ext)
    requires n.ext == e
    ensures n in Names(Listing(d, e)) <==> n in Names(d)
  {
    if d != [] {
      ListingNames(d[1..], n, e);
      if d[0].name.ext == e {
        assert Names(Listing(d, e)) == {d[0].name} + Names(Listing(d[1..], e));
      }
    }
  }

  /** Staging adds one file to its listing unless it replaces one of the
      same name. */
  lemma StageCount(d: Directory, stem: string, ext: Ext, data: seq<byte>)
    requires Distinct(d) && ext != Tmp
    ensures |Listing(Stage(d, stem, ext, data), ext)|
         == |Listing(d, ext)| + (if Name(stem, ext) in Names(d) then 0 else 1)
  {
    StageListing(d, stem, ext, data, ext);
    ListingDistinct(d, ext);
    RemoveCount(Listing(d, ext), Name(stem, ext));
    ListingNames(d, Name(stem, ext), ext);
  }

  /** In a directory without repeated names, unlinking a file of the
      listed extension shortens the listing by one. */
  lemma RemoveListed(d: Directory, n: Name)
    requires Distinct(d) && n in Names(d)
    ensures |Listing(Remove(d, n), n.ext)| == |Listing(d, n.ext)| - 1
  {
    ListingRemove(d, n, n.ext);
    ListingDistinct(d, n.ext);
    ListingNames(d, n, n.ext);
    RemoveCount(Listing(d, n.ext), n);
  }

  /** Unlinking a staged record leaves neither it nor its `.tmp` file. */
  lemma RemoveStaged(d: Directory, stem: string, ext: Ext, data: seq<byte>)
    requires ext != Tmp
    ensures Remove(Stage(d, stem, ext, data), Name(stem, ext)) == Remove(Remove(d, Name(stem, Tmp)), Name(stem, ext))
  {
    var dst := Name(stem, ext);
    StageEffect(d, stem, ext, data);
    var base := Remove(Remove(d, Name(stem, Tmp)), dst);
    RemoveAppend(base, [SpoolFile(dst, data)], dst);
    RemoveAbsent(base, dst);
    assert Remove([SpoolFile(dst, data)], dst) == [];
  }
}
