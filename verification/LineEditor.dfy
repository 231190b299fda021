/** The shell's line editor and command-line tokenizer. */
module LineEditor {
  import opened Numbers

  // ---------------------------------------------------------------------------------------------------
  // Editing as pushing and popping
  // ---------------------------------------------------------------------------------------------------

  type Key = k: int | 0 <= k < 256

  const CTRL_C: Key := 0x03
  const BACKSPACE: char := 8 as char

  predicate Erases(k: Key) {
    k == 0x08 || k == 0x7F
  }

  predicate Ends(k: Key) {
    k == 0x0D || k == 0x0A || k == CTRL_C
  }

  predicate Printable(k: Key) {
    0x20 <= k <= 0x7E
  }

  /** The line after a key: erase pops, a printable character is pushed if there is room, others are ignored. */
  function Edit(line: string, k: Key, size: nat): string {
    if Erases(k) then if line == [] then [] else line[..|line| - 1]
    else if Printable(k) && |line| + 1 < size then line + [k as char]
    else line
  }

  /** What is echoed for a key. */
  function Echo(line: string, k: Key, size: nat): string {
    if Erases(k) then if line == [] then [] else [BACKSPACE, ' ', BACKSPACE]
    else if Printable(k) && |line| + 1 < size then [k as char]
    else []
  }

  function EditAll(keys: seq<Key>, size: nat): string {
    if keys == [] then [] else Edit(EditAll(keys[..|keys| - 1], size), keys[|keys| - 1], size)
  }

  function EchoAll(keys: seq<Key>, size: nat): string {
    if keys == [] then []
    else EchoAll(keys[..|keys| - 1], size) + Echo(EditAll(keys[..|keys| - 1], size), keys[|keys| - 1], size)
  }

  lemma {:induction false} LineFits(keys: seq<Key>, size: nat)
    requires size > 0
    ensures |EditAll(keys, size)| < size && '\0' !in EditAll(keys, size)
  {
    if keys != [] { LineFits(keys[..|keys| - 1], size); }
  }

  lemma EditMore(keys: seq<Key>, k: Key, size: nat)
    ensures EditAll(keys + [k], size) == Edit(EditAll(keys, size), k, size)
    ensures EchoAll(keys + [k], size) == EchoAll(keys, size) + Echo(EditAll(keys, size), k, size)
  {
    assert (keys + [k])[..|keys|] == keys;
  }

  /** A text of printable ASCII characters. */
  predicate Plain(text: string) {
    forall i | 0 <= i < |text| :: ' ' <= text[i] <= '~'
  }

  function KeyOf(c: char): Key {
    if c <= '~' then c as int else 0
  }

  /** The keys of a text. */
  function Typed(text: string): (keys: seq<Key>)
    ensures |keys| == |text| && forall i | 0 <= i < |text| :: keys[i] == KeyOf(text[i])
  {
    seq(|text|, i requires 0 <= i < |text| => KeyOf(text[i]))
  }

  lemma TypedMore(text: string, n: nat)
    requires |text| == n + 1
    ensures Typed(text) == Typed(text[..n]) + [KeyOf(text[n])]
  {
  }

  /** Typing a text that fits gives the text, and shows it. */
  lemma {:induction false} TypingGivesText(text: string, size: nat)
    requires Plain(text) && |text| < size
    ensures EditAll(Typed(text), size) == text && EchoAll(Typed(text), size) == text
  {
    if text != [] {
      var n := |text| - 1;
      TypingGivesText(text[..n], size);
      TypedMore(text, n);
      EditMore(Typed(text[..n]), KeyOf(text[n]), size);
      assert text == text[..n] + [text[n]];
    }
  }

  /** Backspace and delete take back the character typed last, in a full line the last one that fitted; all other
      control characters and all bytes above the tilde change nothing. */
  lemma KeyByKey(keys: seq<Key>, k: Key, size: nat)
    ensures var line, next := EditAll(keys, size), EditAll(keys + [k], size);
            if k == 8 || k == 127 then if line == [] then next == [] else next == line[..|line| - 1]
            else if 32 <= k <= 126 && |line| + 1 < size then next == line + [k as char]
            else next == line
  {
    EditMore(keys, k, size);
  }

  // ---------------------------------------------------------------------------------------------------
  // The terminal
  // ---------------------------------------------------------------------------------------------------

  /** One line of a terminal. */
  datatype Terminal = Terminal(cells: string, cursor: nat)

  /** A character overwrites the cell at the cursor, a backspace moves the cursor back. */
  function Put(t: Terminal, c: char): Terminal {
    if c == 8 as char then if t.cursor == 0 then t else t.(cursor := t.cursor - 1)
    else if t.cursor < |t.cells| then Terminal(t.cells[t.cursor := c], t.cursor + 1)
    else Terminal(t.cells + [c], |t.cells| + 1)
  }

  function Show(t: Terminal, out: string): Terminal
    decreases |out|
  {
    if out == [] then t else Show(Put(t, out[0]), out[1..])
  }

  /** The terminal shows the line, followed by blanks, with the cursor behind it. */
  predicate Displays(t: Terminal, line: string) {
    t.cursor == |line| <= |t.cells| && t.cells[..t.cursor] == line && forall i | t.cursor <= i < |t.cells| ::
        t.cells[i] == ' '
  }

  lemma {:induction false} ShowConcat(t: Terminal, a: string, b: string)
    ensures Show(t, a + b) == Show(Show(t, a), b)
    decreases |a|
  {
    if a == [] {
      assert a + b == b;
    } else {
      assert (a + b)[1..] == a[1..] + b;
      ShowConcat(Put(t, a[0]), a[1..], b);
    }
  }

  lemma ShowOne(t: Terminal, c: char)
    ensures Show(t, [c]) == Put(t, c)
  {
  }

  lemma EchoDisplays(t: Terminal, line: string, k: Key, size: nat)
    requires Displays(t, line)
    ensures Displays(Show(t, Echo(line, k, size)), Edit(line, k, size))
  {
    if Erases(k) && line != [] {
      assert Show(t, [BACKSPACE, ' ', BACKSPACE]) == Put(Put(Put(t, BACKSPACE), ' '), BACKSPACE) by {
        ShowConcat(t, [BACKSPACE], [' ', BACKSPACE]);
        ShowConcat(Put(t, BACKSPACE), [' '], [BACKSPACE]);
        ShowOne(t, BACKSPACE);
        ShowOne(Put(t, BACKSPACE), ' ');
        ShowOne(Put(Put(t, BACKSPACE), ' '), BACKSPACE);
        assert [BACKSPACE] + [' ', BACKSPACE] == [BACKSPACE, ' ', BACKSPACE] && [' '] + [BACKSPACE] == [' ', BACKSPACE];
      }
    } else if !Erases(k) && Printable(k) && |line| + 1 < size {
      ShowOne(t, k as char);
    }
  }

  /** For every sequence of keys, what has been echoed leaves on the terminal exactly the edited line. */
  lemma {:induction false} TerminalShowsLine(keys: seq<Key>, size: nat)
    ensures Displays(Show(Terminal([], 0), EchoAll(keys, size)), EditAll(keys, size))
  {
    if keys != [] {
      var before := keys[..|keys| - 1];
      TerminalShowsLine(before, size);
      ShowConcat(Terminal([], 0), EchoAll(before, size), Echo(EditAll(before, size), keys[|keys| - 1], size));
      EchoDisplays(Show(Terminal([], 0), EchoAll(before, size)), EditAll(before, size), keys[|keys| - 1], size);
    }
  }

  // ---------------------------------------------------------------------------------------------------
  // shell_readline
  // ---------------------------------------------------------------------------------------------------

  /** The position of the first key that ends the line. */
  function LineEnd(keys: seq<Key>): (n: nat)
    requires exists k :: k in keys && Ends(k)
    ensures n < |keys| && Ends(keys[n]) && forall i | 0 <= i < n :: !Ends(keys[i])
  {
    if Ends(keys[0]) then 0 else 1 + LineEnd(keys[1..])
  }

  lemma EndIs(keys: seq<Key>, n: nat)
    requires n < |keys| && Ends(keys[n]) && forall i | 0 <= i < n :: !Ends(keys[i])
    ensures (exists k :: k in keys && Ends(k)) && LineEnd(keys) == n
  {
    assert keys[n] in keys;
  }

  /** Carriage return, line feed or Ctrl-C ends a line of typed text. */
  lemma LineRead(text: string, enter: Key, rest: seq<Key>, size: nat)
    requires Plain(text) && |text| < size && (enter == 13 || enter == 10 || enter == 3)
    ensures var keys := Typed(text) + [enter] + rest;
            (exists k :: k in keys && Ends(k)) && LineEnd(keys) == |text| && EditAll(keys[..|text|], size) == text
  {
    var keys := Typed(text) + [enter] + rest;
    EndIs(keys, |text|);
    assert keys[..|text|] == Typed(text);
    TypingGivesText(text, size);
  }

  /** The buffer holds the line and NULs behind it. */
  ghost predicate Holds(buf: seq<char>, line: string, size: nat) {
    |line| < size == |buf| && buf[..|line|] == line && forall i | |line| <= i < size :: buf[i] == '\0'
  }

  /** shell_memset with NUL. */
  method Clear(buf: array<char>, size: nat)
    requires size == buf.Length
    modifies buf
    ensures forall i | 0 <= i < size :: buf[i] == '\0'
  {
    for i := 0 to size
      invariant forall j | 0 <= j < i :: buf[j] == '\0'
    {
      buf[i] := '\0';
    }
  }

  /** A key that does not end the line. */
  method Press(buf: array<char>, size: nat, pos: nat, c: Key, ghost line: string) returns (next: nat, echo: string)
    requires size == buf.Length && Holds(buf[..], line, size) && pos == |line|
    modifies buf
    ensures Holds(buf[..], Edit(line, c, size), size) && next == |Edit(line, c, size)| && echo == Echo(line, c, size)
  {
    next, echo := pos, [];
    if c == 0x08 || c == 0x7F {
      if pos > 0 {
        next := pos - 1;
        buf[next] := '\0';
        echo := [BACKSPACE, ' ', BACKSPACE];
      }
    } else if 0x20 <= c <= 0x7E && pos < size - 1 {
      buf[pos] := c as char;
      next := pos + 1;
      echo := [c as char];
    }
  }

  lemma OneMoreKey(keys: seq<Key>, n: nat, size: nat)
    requires n < |keys|
    ensures EditAll(keys[..n + 1], size) == Edit(EditAll(keys[..n], size), keys[n], size)
    ensures EchoAll(keys[..n + 1], size) == EchoAll(keys[..n], size) + Echo(EditAll(keys[..n], size), keys[n], size)
  {
    assert keys[..n + 1][..n] == keys[..n];
  }

  /** The editing loop, up to the key that ends the line. */
  method EditLine(buf: array<char>, size: nat, keys: seq<Key>) returns (pos: nat, out: string, used: nat)
    requires size == buf.Length && Holds(buf[..], [], size) && exists k :: k in keys && Ends(k)
    modifies buf
    ensures used == LineEnd(keys) && pos == |EditAll(keys[..used], size)| && out == EchoAll(keys[..used], size)
    ensures Holds(buf[..], EditAll(keys[..used], size), size)
  {
    ghost var end, line := LineEnd(keys), [];
    var echo;
    pos, out, used := 0, [], 0;
    while !Ends(keys[used])
      invariant used <= end && pos == |line| && Holds(buf[..], line, size)
      invariant line == EditAll(keys[..used], size) && out == EchoAll(keys[..used], size)
      decreases end - used
    {
      OneMoreKey(keys, used, size);
      pos, echo := Press(buf, size, pos, keys[used], line);
      line := Edit(line, keys[used], size);
      out := out + echo;
      used := used + 1;
    }
  }

  /** Reads one line; returns its length, or -1 for a cancelled one, with everything written to the terminal
      and the number of keys consumed. */
  method Readline(buf: array<char>, size: nat, keys: seq<Key>) returns (n: int, out: string, used: nat)
    requires 0 < size == buf.Length && exists k :: k in keys && Ends(k)
    modifies buf
    ensures var end := LineEnd(keys);
            var line := EditAll(keys[..end], size);
            && used == end + 1 && |line| < size
            && if keys[end] == 3 then n == -1 && buf[0] == '\0' && out == EchoAll(keys[..end], size) + "^C\r\n"
               else n == |line| && Holds(buf[..], line, size) && out == EchoAll(keys[..end], size) + "\r\n"
  {
    Clear(buf, size);
    var pos, echo, last := EditLine(buf, size, keys);
    used := last + 1;
    if keys[last] == CTRL_C {
      out := echo + "^C\r\n";
      buf[0] := '\0';
      n := -1;
    } else {
      out := echo + "\r\n";
      buf[pos] := '\0';
      n := pos;
    }
  }

  lemma {:induction false} FirstNul(s: seq<char>, n: nat)
    requires n < |s| && s[n] == '\0' && '\0' !in s[..n]
    ensures '\0' in s && CString(s) == s[..n]
  {
    assert s[n] in s;
    if n > 0 {
      assert s[0] in s[..n] && s[1..][..n - 1] == s[..n][1..];
      assert s[1..][n - 1] == '\0';
      FirstNul(s[1..], n - 1);
    }
  }

  /** What a caller finds in the buffer after a line that was not cancelled. */
  lemma BufferIsLine(buf: seq<char>, line: string, size: nat)
    requires Holds(buf, line, size) && '\0' !in line
    ensures '\0' in buf && CString(buf) == line
  {
    assert buf[|line|] == '\0';
    FirstNul(buf, |line|);
  }

  // ---------------------------------------------------------------------------------------------------
  // parse_args
  // ---------------------------------------------------------------------------------------------------

  const MAX_ARGS: nat := 4

  /** The length of the word at the start. */
  function WordLength(text: string): (n: nat)
    ensures n <= |text| && ' ' !in text[..n] && (n < |text| ==> text[n] == ' ')
  {
    if text == [] || text[0] == ' ' then 0 else 1 + WordLength(text[1..])
  }

  /** The words of a text, separated by any number of spaces. */
  function Words(text: string): seq<string>
    decreases |text|
  {
    if text == [] then []
    else if text[0] == ' ' then Words(text[1..])
    else
      var n := WordLength(text);
      [text[..n]] + Words(text[n..])
  }

  lemma {:induction false} WordLengthIs(text: string, n: nat)
    requires n <= |text| && ' ' !in text[..n] && (n < |text| ==> text[n] == ' ')
    ensures WordLength(text) == n
  {
    if n > 0 {
      assert text[0] in text[..n] && text[1..][..n - 1] == text[..n][1..];
      WordLengthIs(text[1..], n - 1);
    }
  }

  /** A word from p to q, and the words behind the separator. */
  lemma NextWord(text: string, p: nat, q: nat)
    requires p < q <= |text| && ' ' !in text[p..q] && (q < |text| ==> text[q] == ' ')
    ensures Words(text[p..]) == [text[p..q]] + Words(text[if q < |text| then q + 1 else q..])
  {
    var rest, n := text[p..], q - p;
    assert rest[..n] == text[p..q] && rest[n..] == text[q..];
    assert rest[0] in text[p..q];
    WordLengthIs(rest, n);
    if q < |text| { assert text[q..][1..] == text[q + 1..]; }
  }

  /** The first words of the text are in place: each starts at its argument pointer and ends with a NUL in
      front of position p, or at the end of the text. */
  ghost predicate Placed(buf: seq<char>, argv: seq<nat>, words: seq<string>, p: nat, end: nat) {
    |argv| == |words| &&
    forall k | 0 <= k < |argv| ::
      && argv[k] + |words[k]| < |buf| && (argv[k] + |words[k]| < p || argv[k] + |words[k]| == p == end)
      && buf[argv[k]..argv[k] + |words[k]|] == words[k] && buf[argv[k] + |words[k]|] == '\0' && '\0' !in words[k]
  }

  lemma ReadsAs(buf: seq<char>, argv: seq<nat>, words: seq<string>, p: nat, end: nat, k: nat)
    requires Placed(buf, argv, words, p, end) && k < |argv|
    ensures argv[k] < |buf| && '\0' in buf[argv[k]..] && CString(buf[argv[k]..]) == words[k]
  {
    var a, n := argv[k], |words[k]|;
    assert buf[a..][..n] == buf[a..a + n] && buf[a..][n] == buf[a + n];
    FirstNul(buf[a..], n);
  }

  /** Each argument pointer reads as its word. */
  ghost predicate Reads(buf: array<char>, argv: seq<nat>, words: seq<string>)
    reads buf
  {
    |argv| <= |words| &&
    forall k | 0 <= k < |argv| ::
      argv[k] < buf.Length && '\0' in buf[argv[k]..] && CString(buf[argv[k]..]) == words[k]
  }

  lemma AllReadAs(buf: array<char>, argv: seq<nat>, words: seq<string>, p: nat, end: nat)
    requires Placed(buf[..], argv, words, p, end)
    ensures Reads(buf, argv, words)
  {
    forall k | 0 <= k < |argv|
      ensures argv[k] < buf.Length && '\0' in buf[argv[k]..] && CString(buf[argv[k]..]) == words[k]
    {
      assert buf[argv[k]..] == buf[..][argv[k]..];
      ReadsAs(buf[..], argv, words, p, end, k);
    }
  }

  /** From position p on the buffer still holds the text. */
  ghost predicate Untouched(buf: seq<char>, text: string, p: nat) {
    p <= |text| < |buf| && buf[p..|text|] == text[p..] && buf[|text|] == '\0' && '\0' !in text
  }

  lemma UntouchedAt(buf: seq<char>, text: string, p: nat, i: nat)
    requires Untouched(buf, text, p) && p <= i <= |text|
    ensures if i < |text| then buf[i] == text[i] != '\0' else buf[i] == '\0'
  {
    if i < |text| { assert buf[p..|text|][i - p] == text[p..][i - p] && text[i] in text; }
  }

  method SkipSpaces(buf: array<char>, start: nat, ghost text: string) returns (p: nat)
    requires Untouched(buf[..], text, start)
    ensures start <= p <= |text| && Words(text[p..]) == Words(text[start..])
    ensures buf[p] != ' '
  {
    p := start;
    while buf[p] == ' '
      invariant start <= p <= |text| && Words(text[p..]) == Words(text[start..])
      decreases |text| - p
    {
      UntouchedAt(buf[..], text, start, p);
      assert text[p..][1..] == text[p + 1..];
      p := p + 1;
    }
  }

  method WordEnd(buf: array<char>, start: nat, ghost text: string) returns (q: nat)
    requires Untouched(buf[..], text, start) && buf[start] != '\0' && buf[start] != ' '
    ensures start < q <= |text| && ' ' !in text[start..q] && (q < |text| ==> text[q] == ' ')
    ensures buf[q] == (if q < |text| then ' ' else '\0')
  {
    UntouchedAt(buf[..], text, start, start);
    q := start;
    while buf[q] != '\0' && buf[q] != ' '
      invariant start <= q <= |text| && ' ' !in text[start..q]
      decreases |text| - q
    {
      UntouchedAt(buf[..], text, start, q);
      assert text[start..q + 1] == text[start..q] + [text[q]];
      q := q + 1;
    }
    UntouchedAt(buf[..], text, start, q);
  }

  /** A word found from p to q, with its NUL written, joins those in place. */
  lemma PlaceWord(before: seq<char>, after: seq<char>, argv: seq<nat>, words: seq<string>, text: string, p0: nat,
      p: nat, q: nat)
    requires Untouched(before, text, p0) && Placed(before, argv, words, p0, |text|)
    requires p0 <= p < q <= |text| && |after| == |before| && after == before[q := '\0']
    ensures var next := if q < |text| then q + 1 else q;
            Untouched(after, text, next) && Placed(after, argv + [p], words + [text[p..q]], next, |text|)
  {
    var next := if q < |text| then q + 1 else q;
    assert after[p..q] == text[p..q] by {
      forall i | p <= i < q ensures after[i] == text[i] { UntouchedAt(before, text, p0, i); }
    }
    forall i | next <= i < |text| ensures after[i] == text[i] { UntouchedAt(before, text, p0, i); }
    assert after[next..|text|] == text[next..];
    forall k | 0 <= k < |argv| ensures after[argv[k]..argv[k] + |words[k]|] == words[k] {
      assert before[argv[k]..argv[k] + |words[k]|] == words[k];
    }
  }

  /** The tokenizer at position p: the words so far are in place, and with those of the rest they are the words of
      the text. */
  ghost predicate Tokenized(buf: seq<char>, text: string, argv: seq<nat>, words: seq<string>, p: nat) {
    && Untouched(buf, text, p) && Placed(buf, argv, words, p, |text|)
    && Words(text) == words + Words(text[p..])
  }

  /** The first word of the rest joins those so far. */
  lemma WordsRegroup(text: string, words: seq<string>, p0: nat, p: nat, q: nat, word: string, next: nat)
    requires p0 <= p < q <= |text| && Words(text) == words + Words(text[p0..]) && Words(text[p..]) == Words(text[p0..])
    requires ' ' !in text[p..q] && (q < |text| ==> text[q] == ' ')
    requires word == text[p..q] && next == if q < |text| then q + 1 else q
    ensures Words(text) == words + [word] + Words(text[next..])
  {
    NextWord(text, p, q);
  }

  lemma OneMoreWord(before: seq<char>, after: seq<char>, argv: seq<nat>, words: seq<string>, text: string, p0: nat,
                    p: nat, q: nat, word: string, next: nat)
    requires Tokenized(before, text, argv, words, p0) && p0 <= p < q <= |text|
    requires Words(text[p..]) == Words(text[p0..]) && ' ' !in text[p..q] && (q < |text| ==> text[q] == ' ')
    requires word == text[p..q] && next == if q < |text| then q + 1 else q
    requires |after| == |before| && after == before[q := '\0']
    ensures Tokenized(after, text, argv + [p], words + [word], next)
  {
    WordsRegroup(text, words, p0, p, q, word, next);
    PlaceWord(before, after, argv, words, text, p0, p, q);
  }

  /** Ends a word with a NUL, if it is not at the end of the text. */
  method EndWord(buf: array<char>, q: nat) returns (next: nat)
    requires q < buf.Length
    modifies buf
    ensures buf[..] == old(buf[..])[q := '\0'] && next == if old(buf[q]) != '\0' then q + 1 else q
  {
    if buf[q] != '\0' {
      buf[q] := '\0';
      next := q + 1;
    } else {
      next := q;
    }
  }

  /** One round of the tokenizer: skips spaces and, if a word follows, ends it with a NUL. */
  method TakeWord(buf: array<char>, p0: nat, ghost argv: seq<nat>, ghost words: seq<string>, ghost text: string)
    returns (found: bool, start: nat, next: nat, ghost word: string)
    requires Tokenized(buf[..], text, argv, words, p0)
    modifies buf
    ensures found ==> p0 < next <= |text| && Tokenized(buf[..], text, argv + [start], words + [word], next)
    ensures !found ==> buf[..] == old(buf[..]) && Words(text[p0..]) == []
  {
    ghost var before := buf[..];
    start := SkipSpaces(buf, p0, text);
    UntouchedAt(buf[..], text, p0, start);
    if buf[start] == '\0' {
      return false, start, start, "";
    }
    var q := WordEnd(buf, start, text);
    word := text[start..q];
    next := EndWord(buf, q);
    OneMoreWord(before, buf[..], argv, words, text, p0, start, q, word, next);
    found := true;
  }

  lemma StartsTokenized(buf: seq<char>, text: string)
    requires '\0' in buf && text == CString(buf)
    ensures Tokenized(buf, text, [], [], 0)
  {
    assert text[0..] == text;
    assert buf[0..|text|] == text;
  }

  /** Tokenizes a NUL-terminated line in place: the argument pointers are those of its first five words, and
      each of them now reads as that word. */
  method ParseArgs(buf: array<char>) returns (argv: seq<nat>)
    requires '\0' in buf[..]
    modifies buf
    ensures var words := Words(old(CString(buf[..])));
            && |argv| == (if |words| < 5 then |words| else 5)
            && Reads(buf, argv, words)
  {
    ghost var text, done: seq<string> := CString(buf[..]), [];
    var p: nat, found := 0, true;
    argv := [];
    StartsTokenized(buf[..], text);
    while found && buf[p] != '\0' && |argv| <= MAX_ARGS
      invariant Tokenized(buf[..], text, argv, done, p) && |argv| <= MAX_ARGS + 1
      invariant found || Words(text[p..]) == []
      decreases found, |text| - p
    {
      var start, next;
      ghost var word;
      found, start, next, word := TakeWord(buf, p, argv, done, text);
      if found {
        argv := argv + [start];
        done := done + [word];
        p := next;
      }
    }
    UntouchedAt(buf[..], text, p, p);
    AllReadAs(buf, argv, done, p, |text|);
  }
}
