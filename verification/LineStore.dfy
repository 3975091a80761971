/** The line-addressed files of HW4/biboServer.c: `fgets` pieces, `readF` and `writeT`. */
module LineStore {
  import opened Posix

  const NUL: Byte := 0
  const NEWLINE: Byte := 10
  const MAX_PIECE := 255   // rows are 256 bytes, fgets keeps one for the terminator
  const MAX_ROWS := 1000

  // Reading a file in pieces.

  /** Number of bytes `fgets` takes from `f` when it has already taken `k`: up to and including
      a newline, at most 255, at most what is there. */
  function Take(f: seq<Byte>, k: nat): (n: nat)
    requires k <= |f| && k <= MAX_PIECE
    ensures k <= n <= |f| && n <= MAX_PIECE
    decreases |f| - k
  {
    if k == |f| || k == MAX_PIECE then k
    else if f[k] == NEWLINE then k + 1
    else Take(f, k + 1)
  }

  /** The pieces successive `fgets` calls deliver. */
  function Split(f: seq<Byte>): (ps: seq<seq<Byte>>)
    ensures ps == [] <==> f == []
    decreases |f|
  {
    if f == [] then []
    else
      var n := Take(f, 0);
      assert n > 0;
      [f[..n]] + Split(f[n..])
  }

  function Concat(ps: seq<seq<Byte>>): seq<Byte> {
    if ps == [] then [] else ps[0] + Concat(ps[1..])
  }

  /** The bytes of a row that the string functions see: those before the first NUL. */
  function CString(p: seq<Byte>): (s: seq<Byte>)
    ensures |s| <= |p| && s == p[..|s|] && 0 !in s && (|s| < |p| ==> p[|s|] == 0)
    ensures |s| == |p| <==> 0 !in p
  {
    if p == [] || p[0] == NUL then [] else [p[0]] + CString(p[1..])
  }

  /** What `fprintf(file, "%s", row)` over all rows writes. */
  function Print(ps: seq<seq<Byte>>): seq<Byte> {
    if ps == [] then [] else CString(ps[0]) + Print(ps[1..])
  }

  lemma PrintFirst(ps: seq<seq<Byte>>)
    requires ps != []
    ensures Print(ps) == CString(ps[0]) + Print(ps[1..])
  {
  }

  // Which piece lists are the splitting of a file.

  /** At most 255 bytes, of which only the last may be a newline. */
  ghost predicate IsPiece(p: seq<Byte>) {
    1 <= |p| <= 255 && forall k :: 0 <= k < |p| - 1 ==> p[k] != 10
  }

  /** A piece after which `fgets` starts afresh whatever follows. */
  ghost predicate IsClosed(p: seq<Byte>) {
    p != [] && (p[|p| - 1] == 10 || |p| == 255)
  }

  ghost predicate IsSplit(ps: seq<seq<Byte>>) {
    && (forall k :: 0 <= k < |ps| ==> IsPiece(ps[k]))
    && (forall k :: 0 <= k < |ps| - 1 ==> IsClosed(ps[k]))
  }

  lemma {:induction false} TakeIsPiece(f: seq<Byte>, k: nat)
    requires k <= |f| && k < MAX_PIECE && f != []
    requires forall i :: 0 <= i < k ==> f[i] != NEWLINE
    ensures var n := Take(f, k);
            n > 0 && IsPiece(f[..n]) && (n < |f| ==> IsClosed(f[..n]))
    decreases |f| - k
  {
    if k < |f| && f[k] != NEWLINE && k + 1 < MAX_PIECE {
      TakeIsPiece(f, k + 1);
    }
  }

  /** `fgets` takes exactly a piece that is closed or last. */
  lemma {:induction false} TakeOfPiece(p: seq<Byte>, rest: seq<Byte>, k: nat)
    requires IsPiece(p) && (rest == [] || IsClosed(p)) && k <= |p|
    requires k == |p| ==> k == MAX_PIECE || rest == []
    ensures Take(p + rest, k) == |p|
    decreases |p| - k
  {
    if k < |p| && k + 1 <= |p| && (p + rest)[k] != NEWLINE {
      if k + 1 == |p| && rest != [] {
        assert IsClosed(p);
      }
      TakeOfPiece(p, rest, k + 1);
    } else if k < |p| {
      assert p[k] == NEWLINE;
    }
  }

  lemma PieceFirst(p: seq<Byte>, rest: seq<seq<Byte>>)
    requires IsPiece(p) && IsSplit(rest) && (rest != [] ==> IsClosed(p))
    ensures IsSplit([p] + rest) && Concat([p] + rest) == p + Concat(rest)
  {
    var ps := [p] + rest;
    assert ps[1..] == rest;
    forall k | 0 <= k < |ps|
      ensures IsPiece(ps[k]) && (k < |ps| - 1 ==> IsClosed(ps[k]))
    {
      assert k > 0 ==> ps[k] == rest[k - 1];
    }
  }

  /** Splitting gives a well-formed list whose concatenation is the file. */
  lemma {:induction false} SplitSound(f: seq<Byte>)
    ensures IsSplit(Split(f)) && Concat(Split(f)) == f
    decreases |f|
  {
    if f != [] {
      var n := Take(f, 0);
      TakeIsPiece(f, 0);
      SplitSound(f[n..]);
      PieceFirst(f[..n], Split(f[n..]));
      assert f == f[..n] + f[n..];
    }
  }

  /** Splitting the concatenation of any well-formed list gives that list back. */
  lemma {:induction false} SplitComplete(ps: seq<seq<Byte>>)
    requires IsSplit(ps)
    ensures Split(Concat(ps)) == ps
  {
    if ps != [] {
      var p, rest := ps[0], ps[1..];
      forall k | 0 <= k < |rest| - 1
        ensures IsClosed(rest[k])
      {
        assert rest[k] == ps[k + 1];
      }
      SplitComplete(rest);
      var f := p + Concat(rest);
      assert IsPiece(p);
      if rest != [] {
        assert IsClosed(ps[0]);
      }
      TakeOfPiece(p, Concat(rest), 0);
      assert f[..|p|] == p && f[|p|..] == Concat(rest);
    }
  }

  /** Both directions at once: well-formed lists are exactly the results of splitting. */
  lemma SplitCharacterised(ps: seq<seq<Byte>>)
    ensures IsSplit(ps) <==> Split(Concat(ps)) == ps
  {
    if IsSplit(ps) {
      SplitComplete(ps);
    } else if Split(Concat(ps)) == ps {
      SplitSound(Concat(ps));
    }
  }

  lemma {:induction false} ConcatAppend(ps: seq<seq<Byte>>, qs: seq<seq<Byte>>)
    ensures Concat(ps + qs) == Concat(ps) + Concat(qs)
  {
    if ps == [] {
      assert ps + qs == qs;
    } else {
      assert (ps + qs)[1..] == ps[1..] + qs;
      ConcatAppend(ps[1..], qs);
    }
  }

  lemma ConcatFirst(ps: seq<seq<Byte>>)
    requires ps != []
    ensures Concat(ps) == ps[0] + Concat(ps[1..])
  {
  }

  lemma Associates(a: seq<Byte>, b: seq<Byte>, z: seq<Byte>)
    ensures a + (b + z) == a + b + z
  {
  }

  lemma ConcatParts(ps: seq<seq<Byte>>, a: seq<seq<Byte>>, p: seq<Byte>, z: seq<seq<Byte>>)
    requires ps == a + ([p] + z)
    ensures Concat(ps) == Concat(a) + p + Concat(z)
  {
    ConcatAppend(a, [p] + z);
    ConcatFirst([p] + z);
    assert ([p] + z)[1..] == z;
    Associates(Concat(a), p, Concat(z));
  }

  lemma Around<T>(ps: seq<T>, k: nat)
    requires k < |ps|
    ensures ps == ps[..k] + ([ps[k]] + ps[k + 1..])
  {
  }

  lemma ConcatAround(ps: seq<seq<Byte>>, k: nat)
    requires k < |ps|
    ensures Concat(ps) == Concat(ps[..k]) + ps[k] + Concat(ps[k + 1..])
  {
    Around(ps, k);
    ConcatParts(ps, ps[..k], ps[k], ps[k + 1..]);
  }

  /** Closed pieces split the same whatever bytes follow them. */
  lemma SplitAppend(ps: seq<seq<Byte>>, g: seq<Byte>)
    requires IsSplit(ps) && (ps != [] ==> IsClosed(ps[|ps| - 1]))
    ensures Split(Concat(ps) + g) == ps + Split(g)
  {
    SplitSound(g);
    var qs := ps + Split(g);
    forall k | 0 <= k < |qs|
      ensures IsPiece(qs[k]) && (k < |qs| - 1 ==> IsClosed(qs[k]))
    {
      if k >= |ps| {
        assert qs[k] == Split(g)[k - |ps|];
      }
    }
    ConcatAppend(ps, Split(g));
    SplitComplete(qs);
  }

  // Reprinting.

  lemma {:induction false} PrintIsConcat(ps: seq<seq<Byte>>)
    requires forall k :: 0 <= k < |ps| ==> NUL !in ps[k]
    ensures Print(ps) == Concat(ps)
  {
    if ps != [] {
      var rest := ps[1..];
      assert forall k :: 0 <= k < |rest| ==> rest[k] == ps[k + 1];
      PrintIsConcat(rest);
      assert NUL !in ps[0];
      assert CString(ps[0]) == ps[0];
    }
  }

  /** Rows are printed one after the other, each up to its first NUL. */
  lemma {:induction false} PrintAppend(ps: seq<seq<Byte>>, qs: seq<seq<Byte>>)
    ensures Print(ps + qs) == Print(ps) + Print(qs)
  {
    if ps == [] {
      assert ps + qs == qs;
    } else {
      assert (ps + qs)[1..] == ps[1..] + qs;
      PrintAppend(ps[1..], qs);
      Associates(CString(ps[0]), Print(ps[1..]), Print(qs));
    }
  }

  /** What printing writes when row `k` is replaced by a text without NUL. */
  lemma PrintReplaced(ps: seq<seq<Byte>>, k: nat, text: seq<Byte>)
    requires k < |ps| && NUL !in text
    ensures Print(ps[k := text]) == Print(ps[..k]) + text + Print(ps[k + 1..])
  {
    var tail := [text] + ps[k + 1..];
    assert ps[k := text] == ps[..k] + tail;
    PrintAppend(ps[..k], tail);
    assert tail[1..] == ps[k + 1..];
    Associates(Print(ps[..k]), text, Print(ps[k + 1..]));
  }

  lemma {:induction false} PrintLength(ps: seq<seq<Byte>>)
    ensures |Print(ps)| <= |Concat(ps)|
    ensures |Print(ps)| == |Concat(ps)| ==> NUL !in Concat(ps)
  {
    if ps != [] {
      PrintLength(ps[1..]);
    }
  }

  lemma {:induction false} PiecesOf(ps: seq<seq<Byte>>, b: Byte)
    requires b !in Concat(ps)
    ensures forall k :: 0 <= k < |ps| ==> b !in ps[k]
  {
    if ps != [] {
      PiecesOf(ps[1..], b);
      assert b !in ps[0] && b !in Concat(ps[1..]);
    }
  }

  /** Cutting a file into rows and printing the rows restores it exactly when it has no NUL byte. */
  lemma ReprintRestores(f: seq<Byte>)
    ensures Print(Split(f)) == f <==> NUL !in f
  {
    SplitSound(f);
    if NUL !in f {
      PiecesOf(Split(f), NUL);
      PrintIsConcat(Split(f));
    } else {
      PrintLength(Split(f));
    }
  }

  // The two requests.

  datatype Response = FileNotFound | Whole(text: seq<Byte>) | Line(text: seq<Byte>) | LineNotFound(n: int)

  /** What `readF` answers. */
  function Answer(files: map<string, seq<Byte>>, name: string, line: int): Response {
    if name !in files then FileNotFound
    else
      var ps := Split(files[name]);
      if line == 0 then Whole(Print(ps))
      else if 1 <= line <= |ps| then Line(CString(ps[line - 1]))
      else LineNotFound(line)
  }

  /** The new content of a file that exists. */
  function Rewritten(f: seq<Byte>, line: nat, text: seq<Byte>): seq<Byte> {
    if line == 0 then f + text
    else if line <= |Split(f)| then Print(Split(f)[line - 1 := text])
    else f
  }

  /** The effect of `writeT`: a missing file is created with the text whatever the line number. */
  function Written(files: map<string, seq<Byte>>, name: string, line: nat, text: seq<Byte>): map<string, seq<Byte>> {
    files[name := if name in files then Rewritten(files[name], line, text) else text]
  }

  lemma SplitFirst(f: seq<Byte>)
    ensures var n := Take(f, 0);
            if f == [] then n == 0 && Split(f) == [] else n > 0 && Split(f) == [f[..n]] + Split(f[n..])
  {
  }

  /** An open input stream. */
  class Stream {
    const data: seq<Byte>
    var pos: nat

    constructor (data: seq<Byte>)
      ensures this.data == data && pos == 0
    {
      this.data := data;
      pos := 0;
    }

    /** `fgets(row, 256, file)`; `ok` is whether it returned a row. */
    method Gets() returns (ok: bool, row: seq<Byte>)
      requires pos <= |data|
      modifies this
      ensures pos <= |data| && ok == (old(pos) < |data|)
      ensures ok ==> pos > old(pos) && Split(data[old(pos)..]) == [row] + Split(data[pos..])
      ensures !ok ==> pos == old(pos) && Split(data[pos..]) == []
    {
      var rest := data[pos..];
      var n := Take(rest, 0);
      ok, row := rest != [], rest[..n];
      SplitFirst(rest);
      assert data[pos + n..] == rest[n..];
      pos := pos + n;
    }
  }

  class Server {
    var files: map<string, seq<Byte>>

    /** `readF`; with its header a whole file must fit the 1024-byte response. */
    method ReadF(name: string, line: int) returns (r: Response)
      requires line == 0 && name in files ==> |"File content:\n"| + |files[name]| < 1024
      ensures r == FileNotFound <==> name !in files
      ensures name in files ==>
                var ps := Split(files[name]);
                if line == 0 then r.Whole? && r.text == Print(ps) && (NUL !in files[name] ==> r.text == files[name])
                else if 1 <= line <= |ps| then r.Line? && r.text == CString(ps[line - 1])
                else r == LineNotFound(line)
      ensures r == Answer(files, name, line)
    {
      if name in files {
        ReprintRestores(files[name]);
      }
      if name !in files {
        return FileNotFound;
      }
      var file := new Stream(files[name]);
      if line == 0 {
        var text := ReadAll(file);
        r := Whole(text);
      } else {
        r := ReadLine(file, line);
      }
    }

    /** The loop for line 0: concatenate all rows. */
    method ReadAll(file: Stream) returns (text: seq<Byte>)
      requires file.pos == 0
      modifies file
      ensures text == Print(Split(file.data))
    {
      text := [];
      ghost var left := Split(file.data);
      assert file.data[0..] == file.data;
      var ok, row := file.Gets();
      while ok
        invariant file.pos <= |file.data|
        invariant if ok then left != [] && row == left[0] && left[1..] == Split(file.data[file.pos..]) else left == []
        invariant text + Print(left) == Print(Split(file.data))
        decreases |left|
      {
        PrintFirst(left);
        Associates(text, CString(row), Print(left[1..]));
        text := text + CString(row);
        left := left[1..];
        ok, row := file.Gets();
      }
    }

    /** The loop for a given line: count rows up to it. */
    method ReadLine(file: Stream, line: int) returns (r: Response)
      requires file.pos == 0 && line != 0
      modifies file
      ensures var ps := Split(file.data);
              r == if 1 <= line <= |ps| then Line(CString(ps[line - 1])) else LineNotFound(line)
    {
      ghost var ps := Split(file.data);
      assert file.data[0..] == file.data;
      var i := 0;
      r := LineNotFound(line);
      var ok, row := file.Gets();
      while ok
        invariant file.pos <= |file.data| && 0 <= i <= |ps|
        invariant if ok then i < |ps| && row == ps[i] && ps[i + 1..] == Split(file.data[file.pos..]) else i == |ps|
        invariant line >= 1 ==> i < line
        decreases |ps| - i, ok
      {
        i := i + 1;
        if i == line {
          r := Line(CString(row));
          break;
        }
        ghost var left := ps[i..];
        ok, row := file.Gets();
        assert ok ==> left[0] == row && left[1..] == ps[i + 1..];
      }
      if i != line {
        r := LineNotFound(line);
      }
    }

    /** `writeT`. A row holds 255 bytes and there are 1000 rows; the text is a C string; a
        negative line number would index before the rows. */
    method WriteT(name: string, line: nat, text: seq<Byte>)
      requires NUL !in text && 1 <= |text|
      requires line > 0 && name in files ==> |text| <= 255 && |Split(files[name])| <= 1000
      modifies this
      ensures files == Written(old(files), name, line, text)
      ensures name !in old(files) ==> files == old(files)[name := text]
      ensures name in old(files) && line == 0 ==> files == old(files)[name := old(files)[name] + text]
      ensures name in old(files) && line > 0 ==>
                var ps := Split(old(files)[name]);
                if line <= |ps|
                then files == old(files)[name := Print(ps[..line - 1]) + text + Print(ps[line..])]
                else files == old(files)
    {
      if name !in files {
        files := files[name := text];
      } else if line == 0 {
        files := files[name := files[name] + text];
      } else {
        var lines := new seq<Byte>[MAX_ROWS](_ => []);
        var count := LoadRows(files[name], lines);
        if line <= count {
          ghost var rows := lines[..count];
          PrintReplaced(rows, line - 1, text);
          lines[line - 1] := text;
          assert lines[..count] == rows[line - 1 := text];
          var out := PrintRows(lines, count);
          files := files[name := out];
        } else {
          assert files[name := files[name]] == files;
        }
      }
    }

    /** The `fgets` loop that fills the rows. */
    method LoadRows(f: seq<Byte>, lines: array<seq<Byte>>) returns (count: nat)
      requires |Split(f)| <= lines.Length
      modifies lines
      ensures count <= lines.Length && lines[..count] == Split(f)
    {
      var file := new Stream(f);
      ghost var ps, left := Split(f), Split(f);
      assert f[0..] == f;
      count := 0;
      var ok, row := file.Gets();
      while ok
        invariant file.pos <= |f| && count <= |ps| && left == ps[count..]
        invariant if ok then left != [] && row == left[0] && left[1..] == Split(f[file.pos..]) else left == []
        invariant forall k :: 0 <= k < count ==> lines[k] == ps[k]
        decreases |left|
      {
        assert row == ps[count] && left[1..] == ps[count + 1..];
        lines[count] := row;
        count := count + 1;
        left := left[1..];
        ok, row := file.Gets();
      }
    }

    /** The `fprintf` loop that writes the rows back. */
    method PrintRows(lines: array<seq<Byte>>, count: nat) returns (out: seq<Byte>)
      requires count <= lines.Length
      ensures out == Print(lines[..count])
    {
      out := [];
      for i := 0 to count
        invariant out + Print(lines[i..count]) == Print(lines[..count])
      {
        PrintFirst(lines[i..count]);
        assert lines[i..count][1..] == lines[i + 1..count];
        ghost var before, row, later := out, CString(lines[i]), Print(lines[i + 1..count]);
        out := out + CString(lines[i]);
        assert before + (row + later) == (before + row) + later;
      }
    }
  }

  // Reading what was written.

  lemma ReplacedAround(ps: seq<seq<Byte>>, k: nat, text: seq<Byte>)
    requires k < |ps|
    ensures Concat(ps[k := text]) == Concat(ps[..k]) + text + Concat(ps[k + 1..])
  {
    var qs := ps[k := text];
    ConcatAround(qs, k);
    assert qs[..k] == ps[..k] && qs[k + 1..] == ps[k + 1..];
  }

  /** Rewriting prints the rows as they are when there is no NUL byte. */
  lemma RewrittenIsConcat(f: seq<Byte>, line: nat, text: seq<Byte>)
    requires NUL !in f && NUL !in text && 1 <= line <= |Split(f)|
    ensures Rewritten(f, line, text) == Concat(Split(f)[line - 1 := text])
  {
    SplitSound(f);
    PiecesOf(Split(f), NUL);
    PrintIsConcat(Split(f)[line - 1 := text]);
  }

  /** The content of a file after line `line` was replaced. */
  lemma ReplacedContent(f: seq<Byte>, line: nat, text: seq<Byte>)
    requires NUL !in f && NUL !in text && 1 <= line <= |Split(f)|
    ensures var ps := Split(f); var k := line - 1;
            && Rewritten(f, line, text) == Concat(ps[..k]) + text + Concat(ps[line..])
            && f == Concat(ps[..k]) + ps[k] + Concat(ps[line..])
  {
    var ps, k := Split(f), line - 1;
    SplitSound(f);
    RewrittenIsConcat(f, line, text);
    ReplacedAround(ps, k, text);
    ConcatAround(ps, k);
  }

  lemma ReplacedIsSplit(ps: seq<seq<Byte>>, k: nat, text: seq<Byte>)
    requires IsSplit(ps) && k < |ps|
    ensures IsSplit(ps[k := text]) <==> IsPiece(text) && (k == |ps| - 1 || IsClosed(text))
  {
    var qs := ps[k := text];
    assert qs[k] == text;
    if IsPiece(text) && (k == |ps| - 1 || IsClosed(text)) {
      forall i | 0 <= i < |qs|
        ensures IsPiece(qs[i]) && (i < |qs| - 1 ==> IsClosed(qs[i]))
      {
        assert i != k ==> qs[i] == ps[i];
      }
    }
  }

  /** Replacing line `line` replaces exactly that row, if and only if the text is one `fgets`
      piece and, unless it becomes the last row, ends in a newline or fills its row. */
  lemma ReplaceIsExact(f: seq<Byte>, line: nat, text: seq<Byte>)
    requires NUL !in f && NUL !in text && 1 <= line <= |Split(f)| && 1 <= |text| <= 255
    ensures Split(Rewritten(f, line, text)) == Split(f)[line - 1 := text]
            <==> IsPiece(text) && (line == |Split(f)| || IsClosed(text))
  {
    var ps, k := Split(f), line - 1;
    var qs, g := ps[k := text], Rewritten(f, line, text);
    RewrittenIsConcat(f, line, text);
    assert g == Concat(qs);
    SplitSound(f);
    SplitCharacterised(qs);
    ReplacedIsSplit(ps, k, text);
  }

  /** Read over write: with a text whose only newline is its last byte, `readF` of that line
      gives the text, every other line reads as before, and the number of lines is unchanged. */
  lemma ReadOverWrite(files: map<string, seq<Byte>>, name: string, line: nat, text: seq<Byte>, j: nat)
    requires name in files && NUL !in files[name] && NUL !in text
    requires 1 <= line <= |Split(files[name])|
    requires IsPiece(text) && text[|text| - 1] == NEWLINE
    requires j >= 1
    ensures var files' := Written(files, name, line, text);
            && |Split(files'[name])| == |Split(files[name])|
            && Answer(files', name, j) == if j == line then Line(text) else Answer(files, name, j)
  {
    ReplaceIsExact(files[name], line, text);
  }

  lemma PrefixIsSplit(ps: seq<seq<Byte>>, k: nat)
    requires IsSplit(ps) && k < |ps|
    ensures IsSplit(ps[..k]) && (k > 0 ==> IsClosed(ps[..k][k - 1]))
  {
  }

  lemma SplitAfter(before: seq<seq<Byte>>, text: seq<Byte>, z: seq<Byte>)
    requires IsSplit(before) && (before != [] ==> IsClosed(before[|before| - 1]))
    ensures Split(Concat(before) + text + z) == before + Split(text + z)
  {
    assert Concat(before) + text + z == Concat(before) + (text + z);
    SplitAppend(before, text + z);
  }

  /** Whatever the text, the lines before it stay and the rest is split afresh from it on. */
  lemma RewriteResplits(f: seq<Byte>, line: nat, text: seq<Byte>)
    requires NUL !in f && NUL !in text && 1 <= line <= |Split(f)|
    ensures Split(Rewritten(f, line, text)) == Split(f)[..line - 1] + Split(text + Concat(Split(f)[line..]))
  {
    var ps := Split(f);
    SplitSound(f);
    var before, z := ps[..line - 1], Concat(ps[line..]);
    PrefixIsSplit(ps, line - 1);
    ReplacedContent(f, line, text);
    SplitAfter(before, text, z);
  }

  /** Lines before the written one always read as before. */
  lemma EarlierLinesKept(files: map<string, seq<Byte>>, name: string, line: nat, text: seq<Byte>, j: nat)
    requires name in files && NUL !in files[name] && NUL !in text
    requires 1 <= j < line <= |Split(files[name])|
    ensures Answer(Written(files, name, line, text), name, j) == Answer(files, name, j)
  {
    RewriteResplits(files[name], line, text);
  }

  ghost function Merged(ps: seq<seq<Byte>>, line: nat, text: seq<Byte>): seq<seq<Byte>>
    requires 1 <= line < |ps|
  {
    ps[..line - 1] + [text + ps[line]] + ps[line + 1..]
  }

  lemma MergedIsSplit(ps: seq<seq<Byte>>, line: nat, text: seq<Byte>)
    requires IsSplit(ps) && 1 <= line < |ps|
    requires 1 <= |text| && NEWLINE !in text && |text| + |ps[line]| <= 255
    ensures IsSplit(Merged(ps, line, text))
  {
  }

  lemma MergedContent(ps: seq<seq<Byte>>, line: nat, text: seq<Byte>)
    requires 1 <= line < |ps|
    ensures Concat(Merged(ps, line, text)) == Concat(ps[..line - 1]) + text + Concat(ps[line..])
  {
    var qs, k := Merged(ps, line, text), line - 1;
    ConcatAround(qs, k);
    assert qs[..k] == ps[..k] && qs[k + 1..] == ps[line + 1..];
    var a, tail := Concat(ps[..k]), ps[line..];
    assert tail[0] == ps[line] && tail[1..] == ps[line + 1..];
    var z := Concat(ps[line + 1..]);
    assert a + (text + ps[line]) + z == a + text + (ps[line] + z);
  }

  lemma MergesWhenItFits(f: seq<Byte>, line: nat, text: seq<Byte>)
    requires NUL !in f && NUL !in text && 1 <= line < |Split(f)|
    requires 1 <= |text| && NEWLINE !in text && |text| + |Split(f)[line]| <= 255
    ensures Split(Rewritten(f, line, text)) == Merged(Split(f), line, text)
  {
    var ps := Split(f);
    SplitSound(f);
    MergedIsSplit(ps, line, text);
    SplitComplete(Merged(ps, line, text));
    MergedContent(ps, line, text);
    ReplacedContent(f, line, text);
  }

  /** A text without newline on a line that is not the last runs into the next line. The two
      become one line, and the later ones move up, exactly when they fit in one row. */
  lemma NewlineFreeTextMerges(f: seq<Byte>, line: nat, text: seq<Byte>)
    requires NUL !in f && NUL !in text && 1 <= line < |Split(f)|
    requires 1 <= |text| && NEWLINE !in text
    ensures Split(Rewritten(f, line, text)) == Split(f)[..line - 1] + [text + Split(f)[line]] + Split(f)[line + 1..]
            <==> |text| + |Split(f)[line]| <= 255
  {
    var ps := Split(f);
    if |text| + |ps[line]| <= 255 {
      MergesWhenItFits(f, line, text);
    } else {
      SplitSound(Rewritten(f, line, text));
      assert Merged(ps, line, text)[line - 1] == text + ps[line];
    }
  }

  /** `writeT` beyond the last line changes nothing, and is the only way an existing file with no
      NUL byte can be left as it is by a text that differs from what it replaces. */
  lemma OutOfRangeUnchanged(files: map<string, seq<Byte>>, name: string, line: nat, text: seq<Byte>)
    requires name in files && NUL !in files[name] && NUL !in text && 1 <= |text|
    requires 1 <= line <= |Split(files[name])| ==> Split(files[name])[line - 1] != text
    ensures Written(files, name, line, text) == files <==> line > |Split(files[name])|
  {
    var f := files[name];
    var f' := Written(files, name, line, text)[name];
    SplitSound(f);
    if line == 0 {
      assert |f'| > |f|;
    } else if line <= |Split(f)| {
      var ps := Split(f);
      ReplacedContent(f, line, text);
      var a, b, z := Concat(ps[..line - 1]), ps[line - 1], Concat(ps[line..]);
      assert f == a + b + z && f' == a + text + z;
      assert text == f'[|a|..|a| + |text|] && b == f[|a|..|a| + |b|];
    } else {
      assert files[name := f] == files;
    }
  }

  /** A missing file is created with just the text, whatever the line number, and reads back whole. */
  lemma CreateReadsBack(files: map<string, seq<Byte>>, name: string, line: nat, text: seq<Byte>)
    requires name !in files && NUL !in text
    ensures Answer(Written(files, name, line, text), name, 0) == Whole(text)
    ensures forall other, j :: other != name ==>
              Answer(Written(files, name, line, text), other, j) == Answer(files, other, j)
  {
    ReprintRestores(text);
  }

  /** Line 0 appends: the text starts a new line exactly when nothing or a closed row precedes it. */
  lemma AppendedLines(f: seq<Byte>, text: seq<Byte>)
    requires text != []
    ensures Split(Rewritten(f, 0, text)) == Split(f) + Split(text)
            <==> f == [] || IsClosed(Split(f)[|Split(f)| - 1])
  {
    var ps := Split(f);
    var qs := ps + Split(text);
    SplitSound(f);
    SplitSound(text);
    if ps == [] || IsClosed(ps[|ps| - 1]) {
      SplitAppend(ps, text);
    } else {
      var r := Split(f + text);
      SplitSound(f + text);
      if |r| > |ps| {
        assert IsClosed(r[|ps| - 1]);
        assert qs[|ps| - 1] == ps[|ps| - 1];
      }
    }
  }
  // Examples with bytes in numbers.

  lemma TwoPieces(p: seq<Byte>, q: seq<Byte>)
    requires IsPiece(p) && IsClosed(p) && IsPiece(q)
    ensures Split(p + q) == [p, q]
  {
    var ps := [p, q];
    SplitComplete(ps);
    assert ps[1..] == [q] && [q][1..] == [];
    assert Concat([q]) == q;
  }

  lemma NewlineEndsLine()
    ensures Split([104, 10, 105]) == [[104, 10], [105]]
  {
    var p: seq<Byte>, q: seq<Byte> := [104, 10], [105];
    TwoPieces(p, q);
    assert p + q == [104, 10, 105];
  }

  /** A line of 256 bytes is read as 255 bytes and one. */
  lemma LongLineIsCut(f: seq<Byte>)
    requires |f| == 256 && 10 !in f
    ensures Split(f) == [f[..255], f[255..]]
  {
    assert forall k :: 0 <= k < |f| ==> f[k] in f;
    TwoPieces(f[..255], f[255..]);
    assert f == f[..255] + f[255..];
  }
}
