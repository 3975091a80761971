/** The table of server files in MIDTERM PROJECT/biboServer.c: filled from the directory,
    extended by uploads, shortened by downloads (which delete the file). */
module FileTable {
  import opened Options

  const MAX_FILES := 100

  /** One row; sizes are not modelled. */
  datatype Entry = Entry(name: string, fd: int)

  /** A directory entry as `readdir` gives it: its name and whether it is a regular file. */
  datatype DirEntry = DirEntry(name: string, regular: bool)

  // The table as a value.

  function Names(es: seq<Entry>): (ns: seq<string>)
    ensures |ns| == |es|
  {
    seq(|es|, i requires 0 <= i < |es| => es[i].name)
  }

  function Regular(dir: seq<DirEntry>): seq<string> {
    if dir == [] then []
    else
      var n := |dir| - 1;
      Regular(dir[..n]) + (if dir[n].regular then [dir[n].name] else [])
  }

  /** The names of the regular files among the entries, and of the others. */
  function FilesOf(dir: seq<DirEntry>): set<string> {
    set i | 0 <= i < |dir| && dir[i].regular :: dir[i].name
  }

  function OthersOf(dir: seq<DirEntry>): set<string> {
    set i | 0 <= i < |dir| && !dir[i].regular :: dir[i].name
  }

  /** The first row with that name, or the length of the table. */
  function Find(es: seq<Entry>, name: string): (k: nat)
    ensures k <= |es|
    ensures k < |es| ==> es[k].name == name
    ensures forall i :: 0 <= i < k ==> es[i].name != name
  {
    if es == [] then 0
    else if es[0].name == name then 0
    else
      var k := 1 + Find(es[1..], name);
      assert forall i :: 0 < i < k ==> es[i] == es[1..][i - 1];
      k
  }

  function Without(es: seq<Entry>, k: nat): seq<Entry>
    requires k < |es|
  {
    es[..k] + es[k + 1..]
  }

  /** The table and the entries of the server directory: regular files and all others. */
  datatype Store = Store(table: seq<Entry>, regular: set<string>, others: set<string>)

  /** What a name in a request resolves to: the entry of the server directory that it names, and
      the regular file there that `open` with O_CREAT reaches or creates. The two differ when the
      entry is a link, a FIFO or a directory; both are absent for a path that leads elsewhere. */
  datatype Path = Path(entry: Option<string>, file: Option<string>)

  /** A request, with what `open` returns for an upload and whether `unlink` succeeds for a download. */
  datatype Request = Upload(name: string, path: Path, fd: int) | Download(name: string, path: Path, removed: bool)

  function Elements(x: Option<string>): set<string> {
    if x.Some? then {x.value} else {}
  }

  function Apply(s: Store, r: Request): Store {
    match r
    case Upload(name, path, fd) =>
      if Find(s.table, name) < |s.table| then s
      else s.(table := s.table + [Entry(name, fd)],
              regular := if fd >= 0 then s.regular + Elements(path.file) else s.regular)
    case Download(name, path, removed) =>
      var k := Find(s.table, name);
      var gone := if removed then Elements(path.entry) else {};
      if k < |s.table| then Store(Without(s.table, k), s.regular - gone, s.others - gone) else s
  }

  function ApplyAll(s: Store, rs: seq<Request>): Store {
    if rs == [] then s else Apply(ApplyAll(s, rs[..|rs| - 1]), rs[|rs| - 1])
  }

  /** The row of a new name is the last, with what `open` returned; nothing else is added. */
  lemma UploadAppends(s: Store, name: string, path: Path, fd: int)
    ensures var t := Apply(s, Upload(name, path, fd));
            if name in Names(s.table) then t == s
            else && t.table[..|t.table| - 1] == s.table && t.table[|t.table| - 1].name == name
                 && t.table[|t.table| - 1].fd == fd && t.others == s.others
                 && (forall n :: n in t.regular <==> n in s.regular || (fd >= 0 && path.file == Some(n)))
  {
    NameIn(s.table, name);
  }

  // The table in place.

  class Table {
    const files: array<Entry>
    var num: nat
    var regular: set<string>
    var others: set<string>

    ghost predicate Valid()
      reads this
    {
      files.Length == MAX_FILES && num <= MAX_FILES
    }

    function View(): Store
      reads this, files
      requires num <= files.Length
    {
      Store(files[..num], regular, others)
    }

    /** `list_files` on the entries of the server directory. */
    constructor (dir: seq<DirEntry>, fds: string -> int)
      requires |Regular(dir)| <= 100
      ensures Valid() && fresh(files)
      ensures Names(View().table) == Regular(dir)
      ensures forall i :: 0 <= i < num ==> files[i] == Entry(files[i].name, fds(files[i].name))
      ensures regular == FilesOf(dir) && others == OthersOf(dir)
      ensures forall n :: n in others <==> exists k :: 0 <= k < |dir| && !dir[k].regular && dir[k].name == n
    {
      files := new Entry[MAX_FILES](_ => Entry("", 0));
      regular, others := FilesOf(dir), OthersOf(dir);
      num := 0;
      new;
      for k := 0 to |dir|
        invariant num == |Regular(dir[..k])| && num <= MAX_FILES
        invariant Names(files[..num]) == Regular(dir[..k])
        invariant forall i :: 0 <= i < num ==> files[i] == Entry(files[i].name, fds(files[i].name))
        invariant regular == FilesOf(dir) && others == OthersOf(dir)
      {
        assert dir[..k + 1][..k] == dir[..k];
        RegularGrows(dir, k + 1);
        if dir[k].regular {
          ghost var before := files[..num];
          files[num] := Entry(dir[k].name, fds(dir[k].name));
          num := num + 1;
          assert files[..num] == before + [files[num - 1]];
          assert Names(files[..num]) == Names(before) + [dir[k].name];
        }
      }
      assert dir[..|dir|] == dir;
    }

    /** The search loop the three request functions share. */
    method Search(name: string) returns (found: bool, index: nat)
      requires Valid()
      ensures index == Find(files[..num], name) && found == (index < num)
    {
      found := false;
      index := 0;
      while index < num
        invariant index <= num && !found
        invariant forall i :: 0 <= i < index ==> files[i].name != name
      {
        if files[index].name == name {
          found := true;
          break;
        }
        index := index + 1;
      }
    }

    /** `upload_file`: a name already present is refused; the result of `open` is not checked. */
    method UploadFile(name: string, path: Path, fd: int) returns (ok: bool)
      requires Valid() && (Find(files[..num], name) == num ==> num < 100)
      modifies this, files
      ensures Valid() && View() == Apply(old(View()), Upload(name, path, fd))
      ensures ok == (name !in Names(old(View().table)))
      ensures !ok ==> View() == old(View())
      ensures ok ==> files[..num] == old(files[..num]) + [Entry(name, fd)] && others == old(others)
      ensures ok ==> forall n :: n in regular <==> n in old(regular) || (fd >= 0 && path.file == Some(n))
    {
      var found, index := Search(name);
      NameIn(files[..num], name);
      ok := !found;
      if ok {
        index := num;
        files[index] := Entry(name, fd);
        regular := if fd >= 0 then regular + Elements(path.file) else regular;
        num := num + 1;
        assert files[..num] == old(files[..num]) + [Entry(name, fd)];
      }
    }

    /** `download_file`: the file is deleted and the rows behind it shift left; the result of
        `unlink` is not checked. */
    method DownloadFile(name: string, path: Path, removed: bool) returns (ok: bool)
      requires Valid()
      modifies this, files
      ensures Valid() && View() == Apply(old(View()), Download(name, path, removed))
      ensures ok == (name in Names(old(View().table)))
      ensures !ok ==> View() == old(View())
      ensures ok ==>
                var was := old(files[..num]); var k := Find(was, name);
                && k < |was| && files[..num] == was[..k] + was[k + 1..]
                && (forall n :: n in regular <==> n in old(regular) && !(removed && path.entry == Some(n)))
                && (forall n :: n in others <==> n in old(others) && !(removed && path.entry == Some(n)))
    {
      var found, index := Search(name);
      NameIn(files[..num], name);
      ok := found;
      if found {
        var gone := if removed then Elements(path.entry) else {};
        regular, others := regular - gone, others - gone;
        ShiftLeft(index);
        num := num - 1;
        assert files[..num] == Without(old(files[..num]), index);
      }
    }

    /** The loop that closes the gap at `index`. */
    method ShiftLeft(index: nat)
      requires Valid() && index < num
      modifies files
      ensures files[..num - 1] == Without(old(files[..num]), index)
    {
      ghost var was := files[..num];
      var i := index;
      while i < num - 1
        invariant index <= i <= num - 1
        invariant forall k :: 0 <= k < index || i <= k < num ==> files[k] == was[k]
        invariant forall k :: index <= k < i ==> files[k] == was[k + 1]
      {
        files[i] := files[i + 1];
        i := i + 1;
      }
      assert forall k :: 0 <= k < num - 1 ==> files[k] == Without(was, index)[k];
    }
  }

  lemma RegularOne(e: DirEntry)
    ensures Regular([e]) == if e.regular then [e.name] else []
  {
    assert [e][..0] == [];
  }

  lemma Joined(x: seq<string>, y: seq<string>, z: seq<string>)
    ensures (x + y) + z == x + (y + z)
  {
  }

  /** The listing keeps the order of the directory; with `RegularOne` this says what it picks. */
  lemma {:induction false} RegularJoins(a: seq<DirEntry>, b: seq<DirEntry>)
    ensures Regular(a + b) == Regular(a) + Regular(b)
  {
    if b == [] {
      assert a + b == a;
    } else {
      var n := |b| - 1;
      RegularJoins(a, b[..n]);
      assert (a + b)[..|a| + n] == a + b[..n] && (a + b)[|a| + n] == b[n];
      Joined(Regular(a), Regular(b[..n]), if b[n].regular then [b[n].name] else []);
    }
  }

  lemma {:induction false} RegularGrows(dir: seq<DirEntry>, k: nat)
    requires k <= |dir|
    ensures |Regular(dir[..k])| <= |Regular(dir)|
    decreases |dir| - k
  {
    if k == |dir| {
      assert dir[..k] == dir;
    } else {
      RegularGrows(dir, k + 1);
      assert dir[..k + 1][..k] == dir[..k];
    }
  }

  lemma NameIn(es: seq<Entry>, name: string)
    ensures name in Names(es) <==> Find(es, name) < |es|
  {
    if name in Names(es) {
      var i :| 0 <= i < |es| && Names(es)[i] == name;
      assert es[i].name == name;
    } else {
      assert forall i :: 0 <= i < |es| ==> es[i].name == Names(es)[i];
    }
  }

  // Every serial run.

  /** A name that is no path. */
  predicate Plain(name: string) {
    '/' !in name
  }

  /** Entry names are plain, and no entry is both regular and not. */
  ghost predicate WellFormed(s: Store) {
    (forall n :: n in s.regular || n in s.others ==> Plain(n)) && s.regular !! s.others
  }

  /** What path resolution allows: a plain name is its own entry, an entry that is absent or a
      regular file is what `open` reaches, and what it reaches is no other kind of entry. */
  ghost predicate Resolves(s: Store, name: string, p: Path) {
    && (Plain(name) ==> p.entry == Some(name))
    && (p.entry.Some? && p.entry.value !in s.others ==> p.file == p.entry)
    && (p.file.Some? ==> Plain(p.file.value) && p.file.value !in s.others)
  }

  /** Names are distinct, and they are the directory's regular files. */
  ghost predicate Consistent(s: Store) {
    && (forall i, k :: 0 <= i < k < |s.table| ==> s.table[i].name != s.table[k].name)
    && (forall n :: n in Names(s.table) <==> n in s.regular)
  }

  lemma UploadConsistent(s: Store, name: string, fd: int, added: set<string>)
    requires Consistent(s) && name !in Names(s.table)
    ensures Consistent(s.(table := s.table + [Entry(name, fd)], regular := s.regular + added))
            <==> name in added && added <= s.regular + {name}
  {
    var t := s.(table := s.table + [Entry(name, fd)], regular := s.regular + added);
    assert Names(t.table) == Names(s.table) + [name];
    assert Names(t.table)[|s.table|] == name;
    forall i | 0 <= i < |s.table|
      ensures s.table[i].name != name
    {
      assert Names(s.table)[i] == s.table[i].name;
    }
    if name in added && added <= s.regular + {name} {
      assert forall n :: n in Names(t.table) <==> n in Names(s.table) || n == name;
    } else if name in added {
      var n :| n in added && n !in s.regular + {name};
      assert n in t.regular && n !in Names(t.table);
    } else {
      assert name in Names(t.table) && name !in t.regular;
    }
  }

  /** The names left when the row of `name` is taken out. */
  lemma WithoutNames(es: seq<Entry>, k: nat, n: string)
    requires k < |es| && forall i :: 0 <= i < |es| && i != k ==> es[i].name != es[k].name
    ensures n in Names(Without(es, k)) <==> n in Names(es) && n != es[k].name
  {
    var ns, rest := Names(es), Names(Without(es, k));
    assert rest == ns[..k] + ns[k + 1..];
    assert ns == ns[..k] + [es[k].name] + ns[k + 1..];
    forall i | 0 <= i < |rest|
      ensures rest[i] != es[k].name
    {
      assert rest[i] == es[if i < k then i else i + 1].name;
    }
  }

  lemma DownloadConsistent(s: Store, k: nat, gone: set<string>, others: set<string>)
    requires Consistent(s) && k < |s.table| && gone <= {s.table[k].name}
    ensures Consistent(Store(Without(s.table, k), s.regular - gone, others)) <==> s.table[k].name in gone
  {
    var t, name := Without(s.table, k), s.table[k].name;
    assert Names(s.table)[k] == name;
    forall n
      ensures n in Names(t) <==> n in s.regular - {name}
    {
      WithoutNames(s.table, k, n);
    }
    forall i, j | 0 <= i < j < |t|
      ensures t[i].name != t[j].name
    {
      assert t[i] == s.table[if i < k then i else i + 1] && t[j] == s.table[if j < k then j else j + 1];
    }
    if name in gone {
      assert gone == {name};
    } else {
      WithoutNames(s.table, k, name);
      assert name in s.regular - gone && name !in Names(t);
    }
  }

  /** A new name has to be plain, not that of a link or another special entry, and `open` has to
      succeed; for a download `unlink` has to. */
  predicate Keeps(s: Store, r: Request) {
    match r
    case Upload(name, _, fd) => name in Names(s.table) || (Plain(name) && name !in s.others && fd >= 0)
    case Download(name, _, removed) => name in Names(s.table) ==> removed
  }

  /** A request keeps table and directory in step exactly in that case. */
  lemma ApplyKeepsConsistent(s: Store, r: Request)
    requires Consistent(s) && WellFormed(s) && Resolves(s, r.name, r.path)
    ensures WellFormed(Apply(s, r))
    ensures Consistent(Apply(s, r)) <==> Keeps(s, r)
  {
    var k := Find(s.table, r.name);
    NameIn(s.table, r.name);
    match r {
      case Upload(name, path, fd) =>
        if k == |s.table| {
          UploadConsistent(s, name, fd, if fd >= 0 then Elements(path.file) else {});
        }
      case Download(name, path, removed) =>
        if k < |s.table| {
          assert path.entry == Some(name);
          var gone := if removed then Elements(path.entry) else {};
          DownloadConsistent(s, k, gone, s.others - gone);
        }
    }
  }

  /** Each name resolves in the state in which its request is served. */
  ghost predicate AllResolve(s: Store, rs: seq<Request>) {
    rs != [] ==>
      var front, last := rs[..|rs| - 1], rs[|rs| - 1];
      AllResolve(s, front) && Resolves(ApplyAll(s, front), last.name, last.path)
  }

  /** Each request keeps table and directory in step in the state in which it is served. */
  ghost predicate AllKeep(s: Store, rs: seq<Request>) {
    rs != [] ==>
      var front, last := rs[..|rs| - 1], rs[|rs| - 1];
      AllKeep(s, front) && Keeps(ApplyAll(s, front), last)
  }

  /** Table and directory are in step before and after each request. */
  ghost predicate AlwaysConsistent(s: Store, rs: seq<Request>) {
    Consistent(ApplyAll(s, rs)) && (rs != [] ==> AlwaysConsistent(s, rs[..|rs| - 1]))
  }

  /** Over any sequence of uploads and downloads the names stay distinct and exactly the regular
      files of the directory after every request, if and only if each request keeps them so. */
  lemma {:induction false} RunKeepsConsistent(s: Store, rs: seq<Request>)
    requires Consistent(s) && WellFormed(s) && AllResolve(s, rs)
    ensures AlwaysConsistent(s, rs) <==> AllKeep(s, rs)
    ensures AllKeep(s, rs) ==> WellFormed(ApplyAll(s, rs)) && Consistent(ApplyAll(s, rs))
  {
    if rs != [] {
      var front := rs[..|rs| - 1];
      RunKeepsConsistent(s, front);
      if AllKeep(s, front) {
        ApplyKeepsConsistent(ApplyAll(s, front), rs[|rs| - 1]);
      }
    }
  }

  /** A freshly listed directory, whose names are distinct and plain, gives a consistent table. */
  lemma {:induction false} ListingIsConsistent(s: Store, dir: seq<DirEntry>)
    requires forall i, k :: 0 <= i < k < |dir| ==> dir[i].name != dir[k].name
    requires forall i :: 0 <= i < |dir| ==> Plain(dir[i].name)
    requires Names(s.table) == Regular(dir) && s.regular == FilesOf(dir) && s.others == OthersOf(dir)
    ensures Consistent(s) && WellFormed(s)
  {
    RegularDistinct(dir);
    forall i, k | 0 <= i < k < |s.table|
      ensures s.table[i].name != s.table[k].name
    {
      assert Names(s.table)[i] != Names(s.table)[k];
    }
    forall n
      ensures n in Names(s.table) <==> n in s.regular
    {
      RegularIn(dir, n);
    }
  }

  lemma {:induction false} RegularIn(dir: seq<DirEntry>, n: string)
    ensures n in Regular(dir) <==> n in FilesOf(dir)
  {
    if dir != [] {
      var m := |dir| - 1;
      RegularIn(dir[..m], n);
      assert FilesOf(dir) == FilesOf(dir[..m]) + (if dir[m].regular then {dir[m].name} else {});
    }
  }

  ghost predicate Listed(dir: seq<DirEntry>, name: string) {
    exists m :: 0 <= m < |dir| && dir[m].name == name
  }

  lemma {:induction false} RegularDistinct(dir: seq<DirEntry>)
    requires forall i, k :: 0 <= i < k < |dir| ==> dir[i].name != dir[k].name
    ensures forall i, k :: 0 <= i < k < |Regular(dir)| ==> Regular(dir)[i] != Regular(dir)[k]
    ensures forall i :: 0 <= i < |Regular(dir)| ==> Listed(dir, Regular(dir)[i])
  {
    if dir != [] {
      var n := |dir| - 1;
      var rs := Regular(dir[..n]);
      RegularDistinct(dir[..n]);
      forall i | 0 <= i < |rs|
        ensures Listed(dir, rs[i]) && rs[i] != dir[n].name
      {
        var m :| 0 <= m < n && dir[..n][m].name == rs[i];
        assert dir[m].name == rs[i];
      }
      assert Listed(dir, dir[n].name);
    }
  }

  // Descriptors.

  ghost predicate Distinct(es: seq<Entry>) {
    forall i, k :: 0 <= i < k < |es| ==> es[i].name != es[k].name
  }

  /** The descriptor in the row of `name`, if there is one. */
  function Descriptor(es: seq<Entry>, name: string): Option<int> {
    var k := Find(es, name);
    if k < |es| then Some(es[k].fd) else None
  }

  /** The descriptor told from the requests alone: that of the listing or of the first upload since
      the name was absent, until a download. */
  function LastOpened(initially: Option<int>, rs: seq<Request>, name: string): Option<int> {
    if rs == [] then initially
    else
      var last, before := rs[|rs| - 1], LastOpened(initially, rs[..|rs| - 1], name);
      if last.name != name then before
      else
        match last
        case Upload(_, _, fd) => if before.Some? then before else Some(fd)
        case Download(_, _, _) => None
  }

  lemma RowIsFound(es: seq<Entry>, k: nat)
    requires Distinct(es) && k < |es|
    ensures Find(es, es[k].name) == k
  {
    var j := Find(es, es[k].name);
    assert !(k < j);
    assert !(j < k);
  }

  lemma NoRow(es: seq<Entry>, name: string)
    requires forall i :: 0 <= i < |es| ==> es[i].name != name
    ensures Find(es, name) == |es|
  {
  }

  lemma UploadDescriptor(es: seq<Entry>, e: Entry, name: string)
    requires Distinct(es) && Find(es, e.name) == |es|
    ensures Distinct(es + [e])
    ensures Descriptor(es + [e], name) == if name == e.name then Some(e.fd) else Descriptor(es, name)
  {
    var t, k := es + [e], Find(es, name);
    assert t[|es|] == e && forall i :: 0 <= i < |es| ==> t[i] == es[i];
    if name == e.name {
      RowIsFound(t, |es|);
    } else if k < |es| {
      RowIsFound(t, k);
    } else {
      NoRow(t, name);
    }
  }

  lemma WithoutDistinct(es: seq<Entry>, k: nat)
    requires Distinct(es) && k < |es|
    ensures Distinct(Without(es, k))
    ensures forall i :: 0 <= i < |es| - 1 ==> Without(es, k)[i] == es[if i < k then i else i + 1]
  {
  }

  lemma DownloadDescriptor(es: seq<Entry>, k: nat, name: string)
    requires Distinct(es) && k < |es|
    ensures Descriptor(Without(es, k), name) == if name == es[k].name then None else Descriptor(es, name)
  {
    var t, j := Without(es, k), Find(es, name);
    WithoutDistinct(es, k);
    if name == es[k].name || j == |es| {
      NoRow(t, name);
    } else if j < k {
      RowIsFound(t, j);
    } else {
      assert j != k;
      RowIsFound(t, j - 1);
    }
  }

  /** Over every run each row holds the descriptor of the upload, or the listing, that made it. */
  lemma {:induction false} DescriptorKept(s: Store, rs: seq<Request>, name: string)
    requires Distinct(s.table)
    ensures Distinct(ApplyAll(s, rs).table)
    ensures Descriptor(ApplyAll(s, rs).table, name) == LastOpened(Descriptor(s.table, name), rs, name)
  {
    if rs != [] {
      var before, last := ApplyAll(s, rs[..|rs| - 1]), rs[|rs| - 1];
      DescriptorKept(s, rs[..|rs| - 1], name);
      var k := Find(before.table, last.name);
      if last.Upload? && k == |before.table| {
        UploadDescriptor(before.table, Entry(last.name, last.fd), name);
      } else if last.Download? && k < |before.table| {
        WithoutDistinct(before.table, k);
        DownloadDescriptor(before.table, k, name);
      }
    }
  }

  /** Does the last request about `name` upload it, or, if there is none, was it there? */
  predicate Present(initially: bool, rs: seq<Request>, name: string) {
    if rs == [] then initially
    else
      var last := rs[|rs| - 1];
      if last.name == name then last.Upload? else Present(initially, rs[..|rs| - 1], name)
  }

  /** What a run leaves in the table, told from the requests alone. */
  lemma {:induction false} LastRequestDecides(s: Store, rs: seq<Request>, name: string)
    requires Consistent(s) && WellFormed(s) && AllResolve(s, rs) && AllKeep(s, rs)
    ensures name in ApplyAll(s, rs).regular <==> Present(name in s.regular, rs, name)
    ensures name in Names(ApplyAll(s, rs).table) <==> name in ApplyAll(s, rs).regular
  {
    RunKeepsConsistent(s, rs);
    if rs != [] {
      var front := rs[..|rs| - 1];
      LastRequestDecides(s, front, name);
      RunKeepsConsistent(s, front);
      LastStep(ApplyAll(s, front), rs[|rs| - 1], name);
    }
  }

  lemma LastStep(s: Store, r: Request, name: string)
    requires Consistent(s) && WellFormed(s) && Resolves(s, r.name, r.path) && Keeps(s, r)
    ensures name in Apply(s, r).regular <==> if r.name == name then r.Upload? else name in s.regular
  {
    NameIn(s.table, r.name);
  }

  /** The row of an upload of a new name goes again with the download of that name. */
  lemma RowGoes(s: Store, name: string, p: Path, fd: int, removed: bool)
    requires name !in Names(s.table)
    ensures Apply(Apply(s, Upload(name, p, fd)), Download(name, p, removed)).table == s.table
  {
    NameIn(s.table, name);
    var t := Apply(s, Upload(name, p, fd));
    assert Names(t.table)[|s.table|] == name;
    NameIn(t.table, name);
    assert forall i :: 0 <= i < |s.table| ==> t.table[i] == s.table[i];
    assert Find(t.table, name) == |s.table|;
    assert Without(t.table, |s.table|) == s.table;
  }

  /** Downloading what was just uploaded restores table and directory exactly if the entry that is
      removed was not there before, or, when none is removed, if the upload created no file. For a
      plain name and calls that succeed that is: unless it names a special entry. */
  lemma DownloadUndoesUpload(s: Store, name: string, p: Path, fd: int, removed: bool)
    requires Consistent(s) && WellFormed(s) && Resolves(s, name, p) && name !in Names(s.table)
    ensures var t := Apply(Apply(s, Upload(name, p, fd)), Download(name, p, removed));
            && (t == s <==> if removed && p.entry.Some? then p.entry.value !in s.regular + s.others
                            else fd < 0 || p.file.None? || p.file.value in s.regular)
            && (Plain(name) && fd >= 0 && removed ==> (t == s <==> name !in s.others))
  {
    RowGoes(s, name, p, fd, removed);
    NameIn(s.table, name);
    var u := Apply(s, Upload(name, p, fd));
    assert Names(u.table)[|s.table|] == name;
    NameIn(u.table, name);
    var gone := if removed then Elements(p.entry) else {};
    var t := Apply(u, Download(name, p, removed));
    assert t == Store(s.table, u.regular - gone, s.others - gone);
    if gone == {} {
      assert t.regular == u.regular;
    } else if p.entry.value in s.regular {
      assert p.entry.value !in t.regular;
    } else if p.entry.value in s.others {
      assert p.entry.value !in t.others;
    } else {
      assert t.regular == s.regular;
    }
  }

  /** Another spelling of a listed file: its upload adds a second row for the same file, and its
      download deletes that file. */
  lemma OtherSpelling() returns (s: Store, up: Request, down: Request)
    ensures Consistent(s) && WellFormed(s) && s.regular == {"a"}
    ensures up.Upload? && up.name == "./a" && up.fd >= 0 && Resolves(s, up.name, up.path)
    ensures down.Download? && down.name == "./a" && down.removed && Resolves(s, down.name, down.path)
    ensures !Consistent(Apply(s, up)) && Apply(s, up).regular == {"a"}
    ensures "a" in Names(Apply(Apply(s, up), down).table) && Apply(Apply(s, up), down).regular == {}
  {
    var p := Path(Some("a"), Some("a"));
    s := Store([Entry("a", 3)], {"a"}, {});
    assert Names(s.table) == ["a"];
    up, down := Upload("./a", p, 4), Download("./a", p, true);
    assert "./a"[1] == '/';
    ApplyKeepsConsistent(s, up);
    RowGoes(s, "./a", p, 4, true);
    NameIn(s.table, "./a");
    NameIn(Apply(s, up).table, "./a");
    assert Names(Apply(s, up).table)[1] == "./a";
  }

  /** A download removes exactly the row of that name and keeps the order of all others. */
  lemma DownloadRemovesOne(s: Store, name: string, p: Path, removed: bool, i: nat, k: nat)
    requires Consistent(s) && i < k < |s.table| && s.table[i].name != name && s.table[k].name != name
    ensures var t := Apply(s, Download(name, p, removed)).table;
            && (forall m :: 0 <= m < |t| ==> t[m].name != name)
            && |t| == |s.table| - (if name in Names(s.table) then 1 else 0)
            && exists m, n :: 0 <= m < n < |t| && t[m] == s.table[i] && t[n] == s.table[k]
  {
    var t, x := Apply(s, Download(name, p, removed)).table, Find(s.table, name);
    NameIn(s.table, name);
    var m := if x < i then i - 1 else i;
    var n := if x < k then k - 1 else k;
    assert t[m] == s.table[i] && t[n] == s.table[k];
  }
}
