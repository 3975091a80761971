/** The command loop of HW2/ersoy_burak_1901042703.c: `strtok` words, redirections, `|`. */
module CommandLine {
  import opened Options

  const MAX_COMMANDS := 20

  // Words of a line.

  /** How many characters come before the first that is, or is not, a space. */
  function Scan(s: string, space: bool): (k: nat)
    ensures k <= |s|
    ensures k < |s| ==> (s[k] == ' ') == space
    ensures forall j :: 0 <= j < k ==> (s[j] == ' ') != space
  {
    if s == [] || (s[0] == ' ') == space then 0 else 1 + Scan(s[1..], space)
  }

  /** The text from the first word on. */
  function Trimmed(s: string): string {
    s[Scan(s, false)..]
  }

  /** What is left behind the first word of trimmed text and the NUL that now ends it. */
  function Behind(t: string): string {
    var b := Scan(t, true);
    if b < |t| then t[b + 1..] else []
  }

  /** What successive `strtok(..., " ")` calls return. */
  function Words(s: string): seq<string>
    decreases |s|
  {
    var t := Trimmed(s);
    if t == [] then [] else [t[..Scan(t, true)]] + Words(Behind(t))
  }

  /** The state `strtok` keeps between calls. */
  class Tokenizer {
    const line: string
    var pos: nat

    constructor (line: string)
      ensures this.line == line && pos == 0
    {
      this.line := line;
      pos := 0;
    }

    method Next() returns (token: Option<string>)
      requires pos <= |line|
      modifies this
      ensures pos <= |line|
      ensures match token
              case None => Words(line[old(pos)..]) == [] && Words(line[pos..]) == []
              case Some(w) => Words(line[old(pos)..]) == [w] + Words(line[pos..])
    {
      var rest := line[pos..];
      var a := Scan(rest, false);
      var t := rest[a..];
      assert line[pos + a..] == t;
      if t == [] {
        pos := |line|;
        token := None;
      } else {
        var b := Scan(t, true);
        token := Some(t[..b]);
        var next := pos + a + b + (if b < |t| then 1 else 0);
        assert line[next..] == Behind(t);
        pos := next;
      }
    }
  }

  // The loop.

  datatype Fd = Standard | File(name: string)

  /** Opens and calls of `execute_command`, in order. */
  datatype Event = OpenOut(name: string) | OpenIn(name: string) | Exec(args: seq<string>, input: Fd, output: Fd)

  /** The variables of the loop and what has happened. */
  datatype Loop = Loop(args: seq<string>, input: Fd, output: Fd, events: seq<Event>)

  /** One word of a command, or a redirection operator with its file. */
  datatype Item = Arg(word: string) | Out(file: string) | In(file: string)

  function Idle(events: seq<Event>): Loop {
    Loop([], Standard, Standard, events)
  }

  /** Every `>` and `<` the loop acts on is followed by a word. */
  predicate HasFiles(words: seq<string>) {
    if words == [] then true
    else if words[0] == ">" || words[0] == "<" then |words| >= 2 && HasFiles(words[2..])
    else HasFiles(words[1..])
  }

  /** At most 19 words are pending when a command fires, so the array has room for its NULL. */
  predicate Fits(words: seq<string>, pending: nat) {
    pending < MAX_COMMANDS &&
    if words == [] then true
    else if words[0] == ">" || words[0] == "<" then |words| >= 2 && Fits(words[2..], pending)
    else if words[0] == "|" then Fits(words[1..], 0)
    else Fits(words[1..], pending + 1)
  }

  function Fire(l: Loop): Loop {
    Idle(l.events + [Exec(l.args, l.input, l.output)])
  }

  function ItemEvents(x: Item): seq<Event> {
    match x
    case Arg(_) => []
    case Out(f) => [OpenOut(f)]
    case In(f) => [OpenIn(f)]
  }

  /** What a word or a redirection does to the loop variables. */
  function ApplyItem(l: Loop, x: Item): Loop {
    match x
    case Arg(w) => l.(args := l.args + [w])
    case Out(f) => l.(output := File(f), events := l.events + [OpenOut(f)])
    case In(f) => l.(input := File(f), events := l.events + [OpenIn(f)])
  }

  /** The loop on the words that are left. */
  function Consume(words: seq<string>, l: Loop): Loop
    requires HasFiles(words)
    decreases |words|
  {
    if words == [] then l
    else if words[0] == ">" then
      Consume(words[2..], ApplyItem(l, Out(words[1])))
    else if words[0] == "<" then
      Consume(words[2..], ApplyItem(l, In(words[1])))
    else if words[0] == "|" then Consume(words[1..], Fire(l))
    else Consume(words[1..], ApplyItem(l, Arg(words[0])))
  }

  predicate Redirects(word: string) {
    word == ">" || word == "<"
  }

  lemma ConsumeFile(words: seq<string>, pending: nat, l: Loop)
    requires HasFiles(words) && Fits(words, pending) && words != [] && Redirects(words[0])
    ensures |words| >= 2 && HasFiles(words[2..]) && Fits(words[2..], pending)
    ensures Consume(words, l) ==
            Consume(words[2..], ApplyItem(l, if words[0] == ">" then Out(words[1]) else In(words[1])))
  {
  }

  lemma ConsumeWord(words: seq<string>, pending: nat, l: Loop)
    requires HasFiles(words) && Fits(words, pending) && words != [] && !Redirects(words[0])
    ensures HasFiles(words[1..]) && Fits(words[1..], if words[0] == "|" then 0 else pending + 1)
    ensures Consume(words, l) ==
            Consume(words[1..], if words[0] == "|" then Fire(l) else ApplyItem(l, Arg(words[0])))
  {
  }

  /** The first word, if nothing stands before it, is `:q`: only then does the buffer itself
      compare equal after `strtok` has cut it. */
  predicate Quits(line: string) {
    2 <= |line| && line[..2] == ":q" && (|line| == 2 || line[2] == ' ')
  }

  /** The C string that `input` holds once `strtok` has put a NUL behind each word. */
  function CutBuffer(line: string): string {
    line[..Scan(line, false) + Scan(Trimmed(line), true)]
  }

  lemma QuitsIsComparison(line: string)
    ensures Quits(line) <==> CutBuffer(line) == ":q"
  {
  }

  lemma CutIsFirstWord(line: string)
    requires line != [] && line[0] != ' '
    ensures Words(line) != [] && Words(line)[0] == CutBuffer(line)
  {
    assert Scan(line, false) == 0;
    assert Trimmed(line) == line;
  }

  // Each operator by its character.

  lemma OutOperator(f: string, rest: seq<string>, l: Loop)
    requires HasFiles(rest)
    ensures HasFiles([">", f] + rest)
    ensures Consume([">", f] + rest, l) == Consume(rest, Loop(l.args, l.input, File(f), l.events + [OpenOut(f)]))
  {
    assert ([">", f] + rest)[2..] == rest;
  }

  lemma InOperator(f: string, rest: seq<string>, l: Loop)
    requires HasFiles(rest)
    ensures HasFiles(["<", f] + rest)
    ensures Consume(["<", f] + rest, l) == Consume(rest, Loop(l.args, File(f), l.output, l.events + [OpenIn(f)]))
  {
    assert (["<", f] + rest)[2..] == rest;
  }

  lemma BarOperator(rest: seq<string>, l: Loop)
    requires HasFiles(rest)
    ensures HasFiles(["|"] + rest)
    ensures Consume(["|"] + rest, l)
            == Consume(rest, Loop([], Standard, Standard, l.events + [Exec(l.args, l.input, l.output)]))
  {
    assert (["|"] + rest)[1..] == rest;
  }

  lemma OtherWord(w: string, rest: seq<string>, l: Loop)
    requires HasFiles(rest) && w != ">" && w != "<" && w != "|"
    ensures HasFiles([w] + rest)
    ensures Consume([w] + rest, l) == Consume(rest, Loop(l.args + [w], l.input, l.output, l.events))
  {
    assert ([w] + rest)[1..] == rest;
  }

  /** The line quits exactly when it begins with the word `:q`, without a space before it. */
  lemma QuitsIsFirstWord(line: string)
    ensures Quits(line) <==> line != [] && line[0] != ' ' && Words(line) != [] && Words(line)[0] == ":q"
  {
    QuitsIsComparison(line);
    if line != [] && line[0] != ' ' {
      CutIsFirstWord(line);
    }
  }

  /** What one line adds to the events: a line that quits leaves the loop before its last command. */
  function LineEvents(line: string, events: seq<Event>): seq<Event>
    requires HasFiles(Words(line))
  {
    var l := Consume(Words(line), Idle(events));
    if Quits(line) then l.events else Fire(l).events
  }

  class Shell {
    const tokens: array<string>
    var num: nat
    var input: Fd
    var output: Fd
    var events: seq<Event>

    ghost predicate Valid()
      reads this
    {
      tokens.Length == MAX_COMMANDS && num < MAX_COMMANDS
    }

    /** The loop variables as one value. */
    function View(): Loop
      reads this, tokens
      requires num <= tokens.Length
    {
      Loop(tokens[..num], input, output, events)
    }

    constructor ()
      ensures Valid() && View() == Idle([]) && fresh(tokens)
    {
      tokens := new string[MAX_COMMANDS](_ => "");
      num, input, output, events := 0, Standard, Standard, [];
    }

    /** The call sites of `execute_command` and the resets behind them. */
    method Execute()
      requires Valid()
      modifies this
      ensures Valid() && View() == Fire(old(View()))
    {
      events := events + [Exec(tokens[..num], input, output)];
      input, output, num := Standard, Standard, 0;
    }

    method RedirectOut(name: string)
      requires Valid()
      modifies this
      ensures Valid() && View() == ApplyItem(old(View()), Out(name)) && num == old(num)
    {
      output := File(name);
      events := events + [OpenOut(name)];
    }

    method RedirectIn(name: string)
      requires Valid()
      modifies this
      ensures Valid() && View() == ApplyItem(old(View()), In(name)) && num == old(num)
    {
      input := File(name);
      events := events + [OpenIn(name)];
    }

    method AddWord(w: string)
      requires Valid() && num + 1 < MAX_COMMANDS
      modifies this, tokens
      ensures Valid() && View() == ApplyItem(old(View()), Arg(w)) && num == old(num) + 1
    {
      tokens[num] := w;
      num := num + 1;
      assert tokens[..num] == old(tokens[..num]) + [w];
    }

    /** The loop body up to the next `strtok`, on a word that is no redirection. */
    method TakeWord(word: string, ghost words: seq<string>)
      requires Valid() && words != [] && words[0] == word && !Redirects(word)
      requires HasFiles(words) && Fits(words, num)
      modifies this, tokens
      ensures Valid() && HasFiles(words[1..]) && Fits(words[1..], num)
      ensures Consume(words[1..], View()) == Consume(words, old(View()))
    {
      ConsumeWord(words, num, View());
      if word == "|" {
        Execute();
      } else {
        AddWord(word);
      }
    }

    /** The loop body on `>` or `<` and the file behind it. */
    method TakeFile(word: string, strtok: Tokenizer, ghost words: seq<string>)
      requires Valid() && words != [] && words[0] == word && Redirects(word)
      requires strtok.pos <= |strtok.line| && words[1..] == Words(strtok.line[strtok.pos..])
      requires HasFiles(words) && Fits(words, num)
      modifies this, strtok
      ensures Valid() && |words| >= 2 && HasFiles(words[2..]) && Fits(words[2..], num)
      ensures strtok.pos <= |strtok.line| && words[2..] == Words(strtok.line[strtok.pos..])
      ensures Consume(words[2..], View()) == Consume(words, old(View()))
    {
      ConsumeFile(words, num, View());
      var file := strtok.Next();
      assert words[1..][0] == words[1] == file.value && words[1..][1..] == words[2..];
      if word == ">" {
        RedirectOut(file.value);
      } else {
        RedirectIn(file.value);
      }
    }

    /** The loop over the words of a line. */
    method RunWords(line: string)
      requires Valid() && HasFiles(Words(line)) && Fits(Words(line), num)
      modifies this, tokens
      ensures Valid() && View() == Consume(Words(line), old(View()))
    {
      var strtok := new Tokenizer(line);
      assert line[0..] == line;
      ghost var words := Words(line);
      var token := strtok.Next();
      while token.Some?
        invariant strtok.line == line && strtok.pos <= |line| && Valid() && fresh(strtok)
        invariant if token.Some? then words != [] && words[0] == token.value && words[1..] == Words(line[strtok.pos..])
                  else words == []
        invariant HasFiles(words) && Fits(words, num)
        invariant Consume(words, View()) == Consume(Words(line), old(View()))
        decreases |words|
      {
        if Redirects(token.value) {
          TakeFile(token.value, strtok, words);
          words := words[2..];
        } else {
          TakeWord(token.value, words);
          words := words[1..];
        }
        token := strtok.Next();
      }
    }

    /** One line read from the user. */
    method RunLine(line: string) returns (quit: bool)
      requires Valid() && View() == Idle(events)
      requires HasFiles(Words(line)) && Fits(Words(line), 0)
      modifies this, tokens
      ensures quit == Quits(line)
      ensures Valid() && (!quit ==> View() == Idle(events))
      ensures events == LineEvents(line, old(events))
    {
      assert View().args == [];
      RunWords(line);
      QuitsIsComparison(line);
      quit := CutBuffer(line) == ":q";
      if !quit {
        Execute();
      }
    }
  }

  // Pipelines.

  /** One command: its words and redirections in the order written. */
  type Stage = seq<Item>

  function ItemWords(x: Item): seq<string> {
    match x
    case Arg(w) => [w]
    case Out(f) => [">", f]
    case In(f) => ["<", f]
  }

  function StageWords(st: Stage): seq<string> {
    if st == [] then [] else ItemWords(st[0]) + StageWords(st[1..])
  }

  /** The stages with `|` between them. */
  function PipelineWords(p: seq<Stage>): seq<string> {
    if p == [] then []
    else if |p| == 1 then StageWords(p[0])
    else StageWords(p[0]) + ["|"] + PipelineWords(p[1..])
  }

  predicate Plain(w: string) {
    w != ">" && w != "<" && w != "|"
  }

  predicate ValidStage(st: Stage) {
    forall i :: 0 <= i < |st| && st[i].Arg? ==> Plain(st[i].word)
  }

  predicate ValidPipeline(p: seq<Stage>) {
    p != [] && forall i :: 0 <= i < |p| ==> ValidStage(p[i])
  }

  // What a command means, told without the loop.

  function ItemArgs(x: Item): seq<string> {
    if x.Arg? then [x.word] else []
  }

  function Args(st: Stage): seq<string> {
    if st == [] then [] else ItemArgs(st[0]) + Args(st[1..])
  }

  /** Its last redirection of either kind, else the standard descriptor. */
  function LastOut(st: Stage): Fd {
    if st == [] then Standard
    else
      var x := st[|st| - 1];
      if x.Out? then File(x.file) else LastOut(st[..|st| - 1])
  }

  function LastIn(st: Stage): Fd {
    if st == [] then Standard
    else
      var x := st[|st| - 1];
      if x.In? then File(x.file) else LastIn(st[..|st| - 1])
  }

  function Opens(st: Stage): seq<Event> {
    if st == [] then []
    else ItemEvents(st[0]) + Opens(st[1..])
  }

  function StageEvents(st: Stage): seq<Event> {
    Opens(st) + [Exec(Args(st), LastIn(st), LastOut(st))]
  }

  function PipelineEvents(p: seq<Stage>): seq<Event> {
    if p == [] then [] else StageEvents(p[0]) + PipelineEvents(p[1..])
  }

  /** A redirection that no later one of its kind follows is the one that counts. */
  lemma {:induction false} LastOutCounts(st: Stage, k: nat)
    requires k < |st| && st[k].Out? && forall i :: k < i < |st| ==> !st[i].Out?
    ensures LastOut(st) == File(st[k].file)
  {
    if k < |st| - 1 {
      LastOutCounts(st[..|st| - 1], k);
    }
  }

  lemma {:induction false} LastInCounts(st: Stage, k: nat)
    requires k < |st| && st[k].In? && forall i :: k < i < |st| ==> !st[i].In?
    ensures LastIn(st) == File(st[k].file)
  {
    if k < |st| - 1 {
      LastInCounts(st[..|st| - 1], k);
    }
  }

  lemma {:induction false} NoRedirection(st: Stage)
    ensures (forall i :: 0 <= i < |st| ==> !st[i].Out?) ==> LastOut(st) == Standard
    ensures (forall i :: 0 <= i < |st| ==> !st[i].In?) ==> LastIn(st) == Standard
  {
    if st != [] {
      NoRedirection(st[..|st| - 1]);
    }
  }

  // The loop does what the pipeline means.

  lemma {:induction false} ArgsSnoc(st: Stage, x: Item)
    ensures Args(st + [x]) == Args(st) + ItemArgs(x)
  {
    if st == [] {
      assert st + [x] == [x];
    } else {
      assert (st + [x])[1..] == st[1..] + [x];
      ArgsSnoc(st[1..], x);
    }
  }

  lemma {:induction false} OpensSnoc(st: Stage, x: Item)
    ensures Opens(st + [x]) == Opens(st) + ItemEvents(x)
  {
    if st == [] {
      assert st + [x] == [x];
    } else {
      assert (st + [x])[1..] == st[1..] + [x];
      OpensSnoc(st[1..], x);
    }
  }

  /** The loop's variables after the items `done` of a command. */
  function Within(done: Stage, events: seq<Event>): Loop {
    Loop(Args(done), LastIn(done), LastOut(done), events + Opens(done))
  }

  lemma WithinSnoc(done: Stage, x: Item, events: seq<Event>)
    ensures Within(done + [x], events) == ApplyItem(Within(done, events), x)
  {
    ArgsSnoc(done, x);
    OpensSnoc(done, x);
    assert (done + [x])[..|done|] == done;
    assert events + (Opens(done) + ItemEvents(x)) == (events + Opens(done)) + ItemEvents(x);
  }

  lemma ConsumeItem(x: Item, rest: seq<string>, l: Loop)
    requires HasFiles(rest) && (x.Arg? ==> Plain(x.word))
    ensures HasFiles(ItemWords(x) + rest)
    ensures Consume(ItemWords(x) + rest, l) == Consume(rest, ApplyItem(l, x))
  {
  }

  lemma StageWordsFirst(st: Stage, rest: seq<string>)
    requires st != [] && ValidStage(st)
    ensures StageWords(st) + rest == ItemWords(st[0]) + (StageWords(st[1..]) + rest)
    ensures ValidStage(st[1..]) && (st[0].Arg? ==> Plain(st[0].word))
  {
    forall i | 0 <= i < |st[1..]| && st[1..][i].Arg?
      ensures Plain(st[1..][i].word)
    {
      assert st[1..][i] == st[i + 1];
    }
  }

  function ApplyItems(l: Loop, st: Stage): Loop
    decreases |st|
  {
    if st == [] then l else ApplyItems(ApplyItem(l, st[0]), st[1..])
  }

  lemma {:induction false} ConsumeItems(st: Stage, rest: seq<string>, l: Loop)
    requires ValidStage(st) && HasFiles(rest)
    ensures HasFiles(StageWords(st) + rest)
    ensures Consume(StageWords(st) + rest, l) == Consume(rest, ApplyItems(l, st))
    decreases |st|
  {
    if st == [] {
      assert StageWords(st) + rest == rest;
    } else {
      StageWordsFirst(st, rest);
      ConsumeItems(st[1..], rest, ApplyItem(l, st[0]));
      ConsumeItem(st[0], StageWords(st[1..]) + rest, l);
    }
  }

  lemma {:induction false} ItemsWithin(done: Stage, st: Stage, events: seq<Event>)
    ensures ApplyItems(Within(done, events), st) == Within(done + st, events)
    decreases |st|
  {
    if st == [] {
      assert done + st == done;
    } else {
      WithinSnoc(done, st[0], events);
      ItemsWithin(done + [st[0]], st[1..], events);
      assert done + [st[0]] + st[1..] == done + st;
    }
  }

  lemma FireStage(st: Stage, events: seq<Event>)
    ensures Fire(Within(st, events)) == Idle(events + StageEvents(st))
  {
  }

  /** A whole command from a fresh loop. */
  lemma ConsumeCommand(st: Stage, rest: seq<string>, events: seq<Event>)
    requires ValidStage(st) && HasFiles(rest)
    ensures HasFiles(StageWords(st) + rest)
    ensures Consume(StageWords(st) + rest, Idle(events)) == Consume(rest, Within(st, events))
  {
    assert events + [] == events && [] + st == st;
    ItemsWithin([], st, events);
    ConsumeItems(st, rest, Idle(events));
  }

  lemma LastCommand(st: Stage, events: seq<Event>)
    requires ValidStage(st)
    ensures HasFiles(StageWords(st))
    ensures Fire(Consume(StageWords(st), Idle(events))) == Idle(events + StageEvents(st))
  {
    ConsumeCommand(st, [], events);
    assert StageWords(st) + [] == StageWords(st);
    FireStage(st, events);
  }

  lemma PipedCommand(st: Stage, rest: seq<string>, events: seq<Event>)
    requires ValidStage(st) && HasFiles(rest)
    ensures HasFiles(StageWords(st) + ["|"] + rest)
    ensures Consume(StageWords(st) + ["|"] + rest, Idle(events)) == Consume(rest, Idle(events + StageEvents(st)))
  {
    var piped := ["|"] + rest;
    assert piped[1..] == rest;
    ConsumeCommand(st, piped, events);
    assert StageWords(st) + ["|"] + rest == StageWords(st) + piped;
    FireStage(st, events);
  }

  lemma EventsAssociate(events: seq<Event>, first: seq<Event>, later: seq<Event>)
    ensures events + first + later == events + (first + later)
  {
  }

  /** On the words of any pipeline the loop opens and executes exactly what the pipeline means:
      every command with its own words and last redirections, none passed on to the next. */
  lemma {:induction false} LoopMeansPipeline(p: seq<Stage>, events: seq<Event>)
    requires ValidPipeline(p)
    ensures HasFiles(PipelineWords(p))
    ensures Fire(Consume(PipelineWords(p), Idle(events))) == Idle(events + PipelineEvents(p))
    decreases |p|
  {
    if |p| == 1 {
      LastCommand(p[0], events);
      assert PipelineEvents(p) == StageEvents(p[0]);
    } else {
      var rest := p[1..];
      assert ValidPipeline(rest);
      LoopMeansPipeline(rest, events + StageEvents(p[0]));
      PipedCommand(p[0], PipelineWords(rest), events);
      EventsAssociate(events, StageEvents(p[0]), PipelineEvents(rest));
    }
  }

  // Every word list is the words of exactly one pipeline.

  /** Reading words back into stages. */
  function Parse(words: seq<string>): (p: seq<Stage>)
    requires HasFiles(words)
    ensures p != []
    decreases |words|
  {
    if words == [] then [[]]
    else if words[0] == ">" then Prepend(Out(words[1]), Parse(words[2..]))
    else if words[0] == "<" then Prepend(In(words[1]), Parse(words[2..]))
    else if words[0] == "|" then [[]] + Parse(words[1..])
    else Prepend(Arg(words[0]), Parse(words[1..]))
  }

  function Prepend(x: Item, p: seq<Stage>): (q: seq<Stage>)
    requires p != []
    ensures q != []
  {
    [[x] + p[0]] + p[1..]
  }

  lemma PrependWords(x: Item, p: seq<Stage>)
    requires p != []
    ensures PipelineWords(Prepend(x, p)) == ItemWords(x) + PipelineWords(p)
  {
    var q := Prepend(x, p);
    assert q[0][1..] == p[0] && q[1..] == p[1..];
    if |p| > 1 {
      var a, b, z := ItemWords(x), StageWords(p[0]), PipelineWords(p[1..]);
      assert (a + b) + ["|"] + z == a + (b + ["|"] + z);
    }
  }

  lemma PrependValid(x: Item, p: seq<Stage>)
    requires ValidPipeline(p) && (x.Arg? ==> Plain(x.word))
    ensures ValidPipeline(Prepend(x, p))
  {
  }

  /** An empty command before the others is a `|` before their words. */
  lemma EmptyFirst(p: seq<Stage>)
    requires ValidPipeline(p)
    ensures ValidPipeline([[]] + p) && PipelineWords([[]] + p) == ["|"] + PipelineWords(p)
  {
    assert ([[]] + p)[1..] == p;
  }

  /** Parsing loses nothing: printing the parsed pipeline gives the words back. */
  lemma {:induction false} ParseSound(words: seq<string>)
    requires HasFiles(words)
    ensures ValidPipeline(Parse(words)) && PipelineWords(Parse(words)) == words
    decreases |words|
  {
    if words == [] {
    } else if words[0] == "|" {
      var rest := words[1..];
      ParseSound(rest);
      EmptyFirst(Parse(rest));
      assert words == ["|"] + rest;
    } else {
      var x := if words[0] == ">" then Out(words[1]) else if words[0] == "<" then In(words[1]) else Arg(words[0]);
      var rest := words[|ItemWords(x)|..];
      ParseSound(rest);
      PrependWords(x, Parse(rest));
      PrependValid(x, Parse(rest));
      assert words == ItemWords(x) + rest;
    }
  }

  /** Parsing the words of a pipeline gives the pipeline. */
  lemma {:induction false} ParseComplete(p: seq<Stage>)
    requires ValidPipeline(p)
    ensures HasFiles(PipelineWords(p)) && Parse(PipelineWords(p)) == p
    decreases |p|, |p[0]|
  {
    if p[0] != [] {
      var x, q := p[0][0], [p[0][1..]] + p[1..];
      assert ValidStage(p[0]);
      assert forall i :: 1 <= i < |q| ==> q[i] == p[i];
      assert Prepend(x, q) == p by {
        assert [x] + p[0][1..] == p[0] && q[1..] == p[1..];
      }
      PrependWords(x, q);
      ParseComplete(q);
      ParseItem(x, PipelineWords(q));
    } else if |p| > 1 {
      ParseComplete(p[1..]);
      var words := PipelineWords(p);
      assert words == ["|"] + PipelineWords(p[1..]);
      assert words[1..] == PipelineWords(p[1..]);
      assert [[]] + p[1..] == p;
    } else {
      assert p == [[]];
    }
  }

  lemma ParseItem(x: Item, rest: seq<string>)
    requires HasFiles(rest) && (x.Arg? ==> Plain(x.word))
    ensures HasFiles(ItemWords(x) + rest)
    ensures Parse(ItemWords(x) + rest) == Prepend(x, Parse(rest))
  {
  }

  // Bytes.

  predicate IsWord(w: string) {
    w != [] && ' ' !in w
  }

  /** The words with one space between them. */
  function Spaced(words: seq<string>): string {
    if words == [] then []
    else if |words| == 1 then words[0]
    else words[0] + [' '] + Spaced(words[1..])
  }

  lemma {:induction false} ScanStops(s: string, space: bool, k: nat)
    requires k <= |s| && (k < |s| ==> (s[k] == ' ') == space)
    requires forall j :: 0 <= j < k ==> (s[j] == ' ') != space
    ensures Scan(s, space) == k
  {
    if k > 0 {
      ScanStops(s[1..], space, k - 1);
    }
  }

  /** A word at the beginning of a line ends at the first space, or at the end. */
  lemma ScanFirst(w: string, rest: string)
    requires IsWord(w) && (rest != [] ==> rest[0] == ' ')
    ensures Trimmed(w + rest) == w + rest && Scan(w + rest, true) == |w| && (w + rest)[..|w|] == w
  {
    var all := w + rest;
    forall j | 0 <= j < |w|
      ensures all[j] != ' '
    {
      assert w[j] in w;
    }
    ScanStops(all, false, 0);
    ScanStops(all, true, |w|);
  }

  lemma LoneWord(w: string)
    requires IsWord(w)
    ensures Words(w) == [w]
  {
    assert w + [] == w;
    ScanFirst(w, []);
    assert Behind(w) == [] && Words([]) == [];
  }

  /** A word before a space is the first that `strtok` returns. */
  lemma FirstWord(w: string, line: string)
    requires IsWord(w)
    ensures Words(w + [' '] + line) == [w] + Words(line)
  {
    var all := w + ([' '] + line);
    assert w + [' '] + line == all;
    ScanFirst(w, [' '] + line);
    assert Behind(all) == line;
  }

  /** Spaces before a word count for nothing, however many. With `FirstWord`, `LoneWord` and the
      empty line this fixes the words of every line. */
  lemma LeadingSpace(s: string)
    ensures Words([' '] + s) == Words(s) && Words([]) == []
  {
    var all := [' '] + s;
    var k := Scan(s, false);
    forall j | 0 <= j < k + 1
      ensures (all[j] == ' ') != false
    {
      assert j > 0 ==> all[j] == s[j - 1];
    }
    assert k < |s| ==> all[k + 1] == s[k];
    ScanStops(all, false, k + 1);
    assert Trimmed(all) == Trimmed(s);
  }

  lemma CutWord(t: string)
    requires t != [] && t[0] != ' '
    ensures IsWord(t[..Scan(t, true)])
  {
    var w := t[..Scan(t, true)];
    assert forall j :: 0 <= j < |w| ==> w[j] == t[j] != ' ';
  }

  /** No word is empty or has a space. */
  lemma {:induction false} WordsAreWords(s: string)
    ensures forall i :: 0 <= i < |Words(s)| ==> IsWord(Words(s)[i])
    decreases |s|
  {
    var t := Trimmed(s);
    if t != [] {
      CutWord(t);
      WordsAreWords(Behind(t));
    }
  }

  /** Splitting at spaces undoes joining with spaces. */
  lemma {:induction false} SpacedRoundTrip(words: seq<string>)
    requires forall i :: 0 <= i < |words| ==> IsWord(words[i])
    ensures Words(Spaced(words)) == words
  {
    if words != [] {
      SpacedRoundTrip(words[1..]);
      if |words| == 1 {
        LoneWord(words[0]);
      } else {
        FirstWord(words[0], Spaced(words[1..]));
      }
    }
  }

  lemma SpacedFirst(words: seq<string>)
    requires words != [] && forall i :: 0 <= i < |words| ==> IsWord(words[i])
    ensures Spaced(words) != [] && Spaced(words)[0] != ' '
  {
    assert words[0][0] in words[0];
  }

  /** A printed line quits exactly when its first word is `:q`. */
  lemma SpacedQuits(words: seq<string>)
    requires forall i :: 0 <= i < |words| ==> IsWord(words[i])
    ensures Quits(Spaced(words)) <==> words != [] && words[0] == ":q"
  {
    SpacedRoundTrip(words);
    QuitsIsFirstWord(Spaced(words));
    if words != [] {
      SpacedFirst(words);
    }
  }

  // How many words fit.

  /** At most 19 words of each command fit, redirections not counted. */
  ghost predicate ShortStages(p: seq<Stage>, pending: nat)
    requires p != []
  {
    pending + |Args(p[0])| <= 19 && forall i :: 1 <= i < |p| ==> |Args(p[i])| <= 19
  }

  lemma ShortPrepend(x: Item, p: seq<Stage>, pending: nat)
    requires p != []
    ensures ShortStages(Prepend(x, p), pending) <==> ShortStages(p, pending + |ItemArgs(x)|)
  {
    var q := Prepend(x, p);
    assert q[0][1..] == p[0] && forall i :: 1 <= i < |p| ==> q[i] == p[i];
  }

  lemma ShortBar(p: seq<Stage>, pending: nat)
    requires p != []
    ensures ShortStages([[]] + p, pending) <==> pending <= 19 && ShortStages(p, 0)
  {
    var q := [[]] + p;
    assert Args(q[0]) == [] && q[1] == p[0];
    assert forall i :: 0 <= i < |p| ==> q[i + 1] == p[i];
    if ShortStages(q, pending) {
      forall i | 1 <= i < |p|
        ensures |Args(p[i])| <= 19
      {
        assert |Args(q[i + 1])| <= 19;
      }
    } else if ShortStages(p, 0) && pending <= 19 {
      forall i | 1 <= i < |q|
        ensures |Args(q[i])| <= 19
      {
        assert q[i] == p[i - 1];
      }
    }
  }

  /** What the array of 20 entries allows, told of the pipeline. */
  lemma {:induction false} FitsExactly(words: seq<string>, pending: nat)
    requires HasFiles(words)
    ensures Fits(words, pending) <==> ShortStages(Parse(words), pending)
    decreases |words|
  {
    if words == [] {
    } else if words[0] == "|" {
      FitsExactly(words[1..], 0);
      ShortBar(Parse(words[1..]), pending);
    } else if words[0] == ">" || words[0] == "<" {
      FitsExactly(words[2..], pending);
      ShortPrepend(if words[0] == ">" then Out(words[1]) else In(words[1]), Parse(words[2..]), pending);
    } else {
      FitsExactly(words[1..], pending + 1);
      ShortPrepend(Arg(words[0]), Parse(words[1..]), pending);
    }
  }

  // Main results.

  /** The events of a pipeline end with its last command. */
  lemma {:induction false} EndsWithExec(p: seq<Stage>)
    requires p != []
    ensures var meant := PipelineEvents(p); meant != [] && meant[|meant| - 1].Exec?
  {
    if |p| > 1 {
      EndsWithExec(p[1..]);
    }
  }

  /** The meaning of a pipeline, without its last command if the line quits. */
  function Performed(p: seq<Stage>, quits: bool): seq<Event>
    requires p != []
  {
    EndsWithExec(p);
    if quits then PipelineEvents(p)[..|PipelineEvents(p)| - 1] else PipelineEvents(p)
  }

  lemma DropLast<T>(a: seq<T>, x: T, b: seq<T>, c: seq<T>)
    requires a + [x] == b + c && c != []
    ensures a == b + c[..|c| - 1] && a != b + c
  {
    assert a == (a + [x])[..|a|] == (b + c)[..|b| + |c| - 1];
  }

  /** The loop's events on the words of a pipeline, with or without the call behind the loop. */
  lemma PipelinePerformed(line: string, p: seq<Stage>, events: seq<Event>)
    requires ValidPipeline(p) && Words(line) == PipelineWords(p) && HasFiles(Words(line))
    ensures LineEvents(line, events) == events + Performed(p, Quits(line))
    ensures LineEvents(line, events) == events + PipelineEvents(p) <==> !Quits(line)
  {
    LoopMeansPipeline(p, events);
    EndsWithExec(p);
    var l := Consume(Words(line), Idle(events));
    DropLast(l.events, Exec(l.args, l.input, l.output), events, PipelineEvents(p));
  }

  /** Every line whose redirections name files does what the one pipeline with its words means;
      exactly on a line that begins with the word `:q` the last command is not executed. */
  lemma LineMeansPipeline(line: string, events: seq<Event>)
    requires HasFiles(Words(line))
    ensures var p := Parse(Words(line));
            && ValidPipeline(p) && PipelineWords(p) == Words(line)
            && LineEvents(line, events) == events + Performed(p, Quits(line))
            && (LineEvents(line, events) == events + PipelineEvents(p) <==> !Quits(line))
  {
    ParseSound(Words(line));
    PipelinePerformed(line, Parse(Words(line)), events);
  }

  /** Printing any pipeline and running the loop on the bytes gives that pipeline back, and does
      all it means exactly when its first printed word is not `:q`. */
  lemma PrintedPipelineRuns(p: seq<Stage>, events: seq<Event>)
    requires ValidPipeline(p)
    requires forall i :: 0 <= i < |PipelineWords(p)| ==> IsWord(PipelineWords(p)[i])
    ensures var words, line := PipelineWords(p), Spaced(PipelineWords(p));
            var quits := words != [] && words[0] == ":q";
            && Words(line) == words && HasFiles(Words(line)) && Parse(Words(line)) == p
            && LineEvents(line, events) == events + Performed(p, quits)
            && (LineEvents(line, events) == events + PipelineEvents(p) <==> !quits)
  {
    SpacedRoundTrip(PipelineWords(p));
    SpacedQuits(PipelineWords(p));
    ParseComplete(p);
    PipelinePerformed(Spaced(PipelineWords(p)), p, events);
  }
}
