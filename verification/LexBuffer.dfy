/** The scanner's matching loop and the refilling of its buffer (lex.zconf.c). */
module LexBuffer {

  /** YY_END_OF_BUFFER_CHAR. */
  const EOB: char := '\0'

  /** YY_READ_BUF_SIZE. */
  const READ_SIZE := 8192

  /**
   * The transition table: a positive entry is the next state, any other is the negated state itself,
   * where matching ends.  The end marker leads to the state `eob`, which nothing leads out of.
   */
  ghost predicate TableOk(nxt: (nat, char) -> int, eob: nat) {
    eob > 0 &&
    (forall c :: nxt(eob, c) == 0 - eob) &&
    (forall s: nat, c :: s > 0 && s != eob ==>
      if c == EOB then nxt(s, c) == eob else nxt(s, c) == 0 - s || (nxt(s, c) > 0 && nxt(s, c) != eob))
  }

  /** The longest match: from state `s` at position `i`, where it ends and in which state. */
  function Run(nxt: (nat, char) -> int, s: nat, input: seq<char>, i: nat): (r: (nat, nat))
    requires i <= |input|
    ensures i <= r.1 <= |input|
    decreases |input| - i
  {
    if i < |input| && nxt(s, input[i]) > 0 then Run(nxt, nxt(s, input[i]), input, i + 1) else (s, i)
  }

  /** The state after all of `text`, or 0 if there is no such state. */
  function Steps(nxt: (nat, char) -> int, s: nat, text: seq<char>): nat {
    if text == [] then s
    else
      var q := Steps(nxt, s, text[..|text| - 1]);
      if q > 0 && nxt(q, text[|text| - 1]) > 0 then nxt(q, text[|text| - 1]) else 0
  }

  /** Matching may be interrupted and taken up again. */
  lemma {:induction false} RunResumes(nxt: (nat, char) -> int, s: nat, input: seq<char>, i: nat, j: nat)
    requires s > 0 && i <= j <= |input| && Steps(nxt, s, input[i..j]) > 0
    ensures Run(nxt, s, input, i) == Run(nxt, Steps(nxt, s, input[i..j]), input, j)
    decreases j - i
  {
    if i < j {
      assert input[i..j][..j - i - 1] == input[i..j - 1];
      RunResumes(nxt, s, input, i, j - 1);
    }
  }

  /** Run is the longest match: the state after the text, from which the next character leads nowhere. */
  lemma {:induction false} RunIsLongest(nxt: (nat, char) -> int, s: nat, input: seq<char>, i: nat, k: nat)
    requires s > 0 && i <= k <= |input| && Steps(nxt, s, input[i..k]) > 0
    ensures var (q, j) := Run(nxt, s, input, i);
            k <= j && q > 0 && Steps(nxt, s, input[i..j]) == q && (j < |input| ==> Steps(nxt, s, input[i..j + 1]) == 0)
    decreases |input| - k
  {
    RunResumes(nxt, s, input, i, k);
    if k < |input| {
      StepsNext(nxt, s, input, i, k);
      if nxt(Steps(nxt, s, input[i..k]), input[k]) > 0 {
        RunIsLongest(nxt, s, input, i, k + 1);
      }
    }
  }

  lemma RunAtEnd(nxt: (nat, char) -> int, s: nat, input: seq<char>)
    ensures Run(nxt, s, input, |input|) == (s, |input|)
  {
  }

  lemma StepsNext(nxt: (nat, char) -> int, s: nat, input: seq<char>, i: nat, j: nat)
    requires i <= j < |input| && Steps(nxt, s, input[i..j]) > 0
    ensures Steps(nxt, s, input[i..j + 1]) ==
            var n := nxt(Steps(nxt, s, input[i..j]), input[j]); if n > 0 then n else 0
  {
    assert input[i..j + 1][..j - i] == input[i..j];
  }

  lemma {:induction false} StepsLive(nxt: (nat, char) -> int, eob: nat, s: nat, text: seq<char>)
    requires TableOk(nxt, eob) && s > 0 && s != eob && forall k :: 0 <= k < |text| ==> text[k] != EOB
    ensures Steps(nxt, s, text) != eob
  {
    if text != [] {
      StepsLive(nxt, eob, s, text[..|text| - 1]);
    }
  }

  /** One transition within the input. */
  lemma OneStep(nxt: (nat, char) -> int, eob: nat, start: nat, input: seq<char>, i: nat, j: nat)
    requires TableOk(nxt, eob) && i <= j < |input| && input[j] != EOB
    requires var s := Steps(nxt, start, input[i..j]); s > 0 && s != eob && start > 0
    ensures var s := Steps(nxt, start, input[i..j]);
            var n := nxt(s, input[j]);
            n != 0 && if n > 0 then n != eob && Steps(nxt, start, input[i..j + 1]) == n
                      else n + s == 0 && Steps(nxt, start, input[i..j + 1]) == 0 && Run(nxt, start, input, i) == (s, j)
  {
    StepsNext(nxt, start, input, i, j);
    RunResumes(nxt, start, input, i, j);
    hide Steps;
  }

  /** Up to the first position at which the run stops every step has a successor. */
  lemma {:induction false} StepsInside(nxt: (nat, char) -> int, s: nat, text: seq<char>, k: nat)
    requires Steps(nxt, s, text) > 0 && k <= |text|
    ensures Steps(nxt, s, text[..k]) > 0
    decreases |text| - k
  {
    if k < |text| {
      StepsInside(nxt, s, text, k + 1);
      assert text[..k + 1][..k] == text[..k];
    } else {
      assert text[..k] == text;
    }
  }

  /** What a call of the scanner finds: the state in which the longest match ended and its text, or the end. */
  datatype Found = Token(state: nat, text: seq<char>) | EndOfFile

  datatype Refill = ContinueScan | LastMatch | AtEnd

  class Scanner {
    const nxt: (nat, char) -> int
    const eob: nat
    /** The whole file, and how much of it has left the front of the buffer. */
    ghost const input: seq<char>
    ghost var base: nat
    /** What has not been read. */
    var source: seq<char>

    var buf: array<char>
    var size: nat
    var count: nat
    /** yy_c_buf_p and yytext_ptr as offsets, and the character that the end of yytext replaces. */
    var pos: nat
    var text: nat
    var hold: char
    var start: nat
    /** YY_BUFFER_EOF_PENDING. */
    var pending: bool

    /** The fixed part of the invariant: what is in the buffer and what is not. */
    ghost predicate Framed()
      reads this, buf
    {
      TableOk(nxt, eob) && start > 0 && start != eob && (forall k :: 0 <= k < |input| ==> input[k] != EOB) &&
      size > 0 && buf.Length == size + 2 && count <= size && base + count <= |input| && source == input[base + count..] &&
      buf[count] == EOB && buf[count + 1] == EOB && (pending ==> source == [])
    }

    /** The buffer holds the input from `base` on, followed by the two end markers. */
    ghost predicate Window()
      reads this, buf
    {
      Framed() && forall k {:trigger buf[k]} :: 0 <= k < count ==> buf[k] == input[base + k]
    }

    /** Between two calls: the character at the end of yytext is held back. */
    ghost predicate Valid()
      reads this, buf
    {
      Framed() && text <= pos <= count &&
      (forall k {:trigger buf[k]} :: 0 <= k < count && k != pos ==> buf[k] == input[base + k]) &&
      hold == (if pos < count then input[base + pos] else EOB) && buf[pos] == EOB
    }

    /** The position in the input. */
    ghost function At(): nat
      reads this
    {
      base + pos
    }

    /** yy_create_buffer on a file. */
    constructor (nxt: (nat, char) -> int, eob: nat, start: nat, file: seq<char>, size: nat)
      requires TableOk(nxt, eob) && start > 0 && start != eob && size > 0 && forall k :: 0 <= k < |file| ==> file[k] != EOB
      ensures Valid() && At() == 0 && input == file && this.nxt == nxt && this.eob == eob && this.start == start && fresh(buf)
    {
      this.nxt, this.eob, this.start, this.size := nxt, eob, start, size;
      input, source, base := file, file, 0;
      buf := new char[size + 2](_ => EOB);
      count, pos, text, hold, pending := 0, 0, 0, EOB, false;
    }

    /** YY_INPUT: some of the unread characters, at most `max`, none only at the end. */
    method ReadInput(at: nat, max: nat) returns (n: nat)
      requires 0 < max && at + max <= buf.Length
      modifies this`source, buf
      ensures n <= max && n <= |old(source)| && (n == 0 <==> old(source) == [])
      ensures source == old(source)[n..]
      ensures forall k :: 0 <= k < n ==> buf[at + k] == old(source)[k]
      ensures forall k :: 0 <= k < buf.Length && !(at <= k < at + n) ==> buf[k] == old(buf[k])
    {
      if source == [] {
        return 0;
      }
      n :| 0 < n <= max && n <= |source|;
      for i := 0 to n
        invariant source == old(source)
        invariant forall k :: 0 <= k < i ==> buf[at + k] == source[k]
        invariant forall k :: 0 <= k < buf.Length && !(at <= k < at + i) ==> buf[k] == old(buf[k])
      {
        buf[at + i] := source[i];
      }
      source := source[n..];
    }

    /** The unfinished token goes to the front of the buffer. */
    method MoveDown(n: nat)
      requires text + n <= buf.Length
      modifies buf
      ensures forall k :: 0 <= k < n ==> buf[k] == old(buf[text + k])
    {
      for i := 0 to n
        invariant forall k :: 0 <= k < i ==> buf[k] == old(buf[text + k])
        invariant forall k :: i <= k < buf.Length ==> buf[k] == old(buf[k])
      {
        buf[i] := buf[text + i];
      }
    }

    /** The buffer is doubled until there is room behind the first `n` characters. */
    method Grow(n: nat)
      requires size > 0 && buf.Length == size + 2 && n <= size
      modifies this`buf, this`size
      ensures size - n - 1 > 0 && size >= old(size) && buf.Length == size + 2 && (buf == old(buf) || fresh(buf))
      ensures forall k :: 0 <= k < n ==> buf[k] == old(buf[k])
    {
      while size - n - 1 <= 0
        invariant 0 < old(size) <= size && buf.Length == size + 2 && n <= size && (buf == old(buf) || fresh(buf))
        invariant forall k :: 0 <= k < n ==> buf[k] == old(buf[k])
        decreases 2 * n + 2 - size
      {
        var bigger := new char[2 * size + 2](_ => EOB);
        var from := buf;
        for i := 0 to from.Length
          invariant forall k :: 0 <= k < i ==> bigger[k] == from[k]
          invariant buf == from && buf.Length == size + 2 && forall k :: 0 <= k < n ==> from[k] == old(buf[k])
        {
          bigger[i] := from[i];
        }
        buf, size := bigger, 2 * size;
      }
    }

    /** The part of yy_get_next_buffer that moves and reads: what is behind the token comes next. */
    method Refilled(n: nat) returns (got: nat)
      requires Window() && text <= count && n == count - text
      modifies this`source, this`buf, this`size, buf
      ensures size > 0 && buf.Length == size + 2 && n + got <= size && (buf == old(buf) || fresh(buf))
      ensures base + count + got <= |input| && source == input[base + count + got..]
      ensures (got == 0 <==> pending || old(source) == [])
      ensures forall k :: 0 <= k < n + got ==> buf[k] == input[base + text + k]
    {
      hide TableOk;
      MoveDown(n);
      assert forall k :: 0 <= k < n ==> buf[k] == input[base + text + k];
      got := 0;
      if !pending {
        Grow(n);
        var room := size - n - 1;
        if room > READ_SIZE {
          room := READ_SIZE;
        }
        ghost var unread := source;
        got := ReadInput(n, room);
        assert forall k :: n <= k < n + got ==> buf[k] == unread[k - n];
      }
    }

    /** yy_get_next_buffer: the token being matched is kept, and the buffer refilled behind it. */
    method GetNextBuffer() returns (ret: Refill)
      requires Window() && text <= count && pos == count + 1
      modifies this, buf
      ensures Window() && text == 0 && base == old(base + text) && start == old(start) && (buf == old(buf) || fresh(buf))
      ensures match ret
              case ContinueScan => count > old(count - text)
              case LastMatch => count == old(count - text) > 0 && source == []
              case AtEnd => count == old(count - text) == 0 && source == []
    {
      hide TableOk;
      var n := pos - text - 1;
      var got := Refilled(n);
      base := base + text;
      if got == 0 {
        ret := if n == 0 then AtEnd else LastMatch;
        pending := n > 0;
      } else {
        ret := ContinueScan;
      }
      count := got + n;
      buf[count], buf[count + 1] := EOB, EOB;
      text := 0;
    }

    /** The state after the token up to offset `cp`. */
    ghost function StateAt(cp: nat): nat
      reads this, buf
      requires Window() && text <= cp <= count
    {
      Steps(nxt, start, input[base + text..base + cp])
    }

    /** One transition. */
    lemma Transition(cp: nat)
      requires Window() && text <= cp <= count && StateAt(cp) > 0
      ensures var (s, n) := (StateAt(cp), nxt(StateAt(cp), buf[cp]));
              s != eob && n != 0 &&
              if cp == count then n == eob
              else if n > 0 then n != eob && StateAt(cp + 1) == n
              else n + s == 0 && StateAt(cp + 1) == 0 && Run(nxt, start, input, base + text) == (s, base + cp)
    {
      StepsLive(nxt, eob, start, input[base + text..base + cp]);
      if cp < count {
        OneStep(nxt, eob, start, input, base + text, base + cp);
      }
      hide Steps, Run;
    }

    lemma Stopped()
      requires Window()
      ensures (forall c :: nxt(eob, c) + eob == 0) && eob > 0 && buf.Length > count + 1
    {
    }

    /** The token has states up to where it has been matched. */
    lemma Earlier(cp: nat, to: nat)
      requires Window() && text <= cp <= to <= count && StateAt(to) > 0
      ensures StateAt(cp) > 0
    {
      var t := input[base + text..base + to];
      StepsInside(nxt, start, t, cp - text);
      assert t[..cp - text] == input[base + text..base + cp];
    }

    lemma AtStart()
      requires Window() && text <= count
      ensures StateAt(text) == start > 0
    {
      assert input[base + text..base + text] == [];
    }

    /** yy_get_previous_state: the state reached by the part of the token that has been matched. */
    method PreviousState() returns (s: nat)
      requires Window() && text <= pos <= count && StateAt(pos) > 0
      ensures s == StateAt(pos)
    {
      hide Window, Framed, Steps, TableOk, StateAt, Run;
      s := start;
      AtStart();
      for cp := text to pos
        invariant s > 0 && s == StateAt(cp)
      {
        Transition(cp);
        Earlier(cp + 1, pos);
        Stopped();
        s := nxt(s, buf[cp]);
      }
    }

    /** The matching loop, from state `s0` at offset `cp0`: to the end of the match or of the buffer. */
    method Match(s0: nat, cp0: nat) returns (s: nat, cp: nat)
      requires Window() && text <= cp0 <= count && s0 == StateAt(cp0) > 0
      ensures s == eob ==> cp == count + 1 && StateAt(count) > 0
      ensures s != eob ==> cp0 <= cp < count && s > 0 && Run(nxt, start, input, base + text) == (s, base + cp)
    {
      hide Window, Framed, Steps, TableOk, StateAt, Run;
      s, cp := s0, cp0;
      Transition(cp);
      Stopped();
      var n := nxt(s, buf[cp]);
      while n > 0
        invariant cp0 <= cp <= count + 1 && n == nxt(s, buf[cp]) && s > 0
        invariant if s == eob then cp == count + 1 && StateAt(count) > 0
                  else cp <= count && s == StateAt(cp)
        decreases count + 2 - cp
      {
        Transition(cp);
        s, cp := n, cp + 1;
        n := nxt(s, buf[cp]);
      }
      if s != eob {
        Transition(cp);
      }
      s := -n;
    }

    /** YY_DO_BEFORE_ACTION: yytext ends at `cp`. */
    method BeforeAction(cp: nat) returns (found: seq<char>)
      requires Window() && text <= cp <= count
      modifies this`hold, this`pos, buf
      ensures Valid() && pos == cp && found == input[base + text..base + cp]
    {
      found := buf[text..cp];
      assert forall k :: 0 <= k < |found| ==> found[k] == buf[text + k];
      hold := buf[cp];
      buf[cp] := EOB;
      pos := cp;
    }

    /** Where the held back character is put back and a new token begins. */
    method Resume()
      requires Valid()
      modifies this`text, buf
      ensures Window() && text == pos <= count && start > 0
    {
      hide TableOk;
      buf[pos] := hold;
      text := pos;
    }

    /** Nothing is left: the scanner stays at the end. */
    method StayAtEnd()
      requires Window() && text == count == 0
      modifies this`pos, this`hold
      ensures Valid() && pos == 0
    {
      pos, hold := text, EOB;
    }

    /** yy_c_buf_p is set. */
    method SetPos(p: nat)
      requires Window()
      modifies this`pos
      ensures Window() && pos == p
    {
      pos := p;
    }

    lemma Bounds()
      requires Window()
      ensures base + count <= |input| && source == input[base + count..] && (source == [] ==> base + count == |input|)
    {
      hide TableOk;
    }

    /** `r` is what a contiguous scan finds from position `p`, and the scanner is behind it. */
    ghost predicate FoundAt(p: nat, r: Found)
      reads this
    {
      p <= At() <= |input| &&
      if p == |input| then r == EndOfFile && At() == |input|
      else
        var (s, j) := Run(nxt, start, input, p);
        r == Token(s, input[p..j]) && At() == j && base + text == p && text <= pos
    }

    /** yylex up to the action: the same token is found however the input is read. */
    method NextToken() returns (r: Found)
      requires Valid()
      modifies this, buf
      ensures Valid() && start == old(start) && (buf == old(buf) || fresh(buf))
      ensures FoundAt(old(At()), r)
    {
      hide Valid, Window, Framed, TableOk, Run, Steps, StateAt, FoundAt;
      ghost var p := At();
      Resume();
      Bounds();
      r := NextMatch(p);
    }

    /** The matching loop with its refills, for the token that begins at `p`. */
    method NextMatch(ghost p: nat) returns (r: Found)
      requires Window() && text == pos <= count && start > 0 && base + text == p <= |input|
      modifies this, buf
      ensures Valid() && start == old(start) && (buf == old(buf) || fresh(buf))
      ensures FoundAt(p, r)
    {
      hide Valid, Window, Framed, TableOk, Run, Steps, StateAt, FoundAt;
      Bounds();
      AtStart();
      var s, cp := start, pos;
      while true
        invariant Window() && base + text == p && text <= cp <= count && start == old(start) && base + count <= |input|
        invariant s > 0 && s == StateAt(cp)
        invariant buf == old(buf) || fresh(buf)
        decreases |input| - base - cp, |input| - base - count
      {
        s, cp := Match(s, cp);
        if s != eob {
          var found := BeforeAction(cp);
          TokenFound(p, s, found);
          return Token(s, found);
        }
        cp := cp - 1;
        var ret := FillAt(cp);
        match ret {
          case AtEnd =>
            StayAtEnd();
            EndFound(p);
            return EndOfFile;
          case ContinueScan =>
            s := PreviousState();
            cp := pos;
          case LastMatch =>
            s := PreviousState();
            AtLast();
            var found := BeforeAction(pos);
            TokenFound(p, s, found);
            return Token(s, found);
        }
      }
    }

    lemma TokenFound(p: nat, s: nat, found: seq<char>)
      requires base + text == p < |input| && text <= pos && At() <= |input|
      requires Run(nxt, start, input, p) == (s, At()) && found == input[p..At()]
      ensures FoundAt(p, Token(s, found))
    {
      hide Run;
    }

    lemma EndFound(p: nat)
      requires At() == |input| == p
      ensures FoundAt(p, EndOfFile)
    {
    }

    /** The end marker has been read at offset `cp`: the buffer is refilled, and matching stands where it was. */
    method FillAt(cp: nat) returns (ret: Refill)
      requires Window() && text <= cp == count && StateAt(cp) > 0
      modifies this, buf
      ensures Window() && base + text == old(base + text) && start == old(start) && (buf == old(buf) || fresh(buf))
      ensures text <= count && base + count <= |input| && base + count >= old(base + count)
      ensures if ret == AtEnd then text == count == 0 && base == |input| == old(base + text)
              else pos <= count && text < count && text <= pos && base + pos == old(base + cp) && StateAt(pos) > 0
      ensures ret == ContinueScan ==> base + count > old(base + count)
      ensures ret == LastMatch ==> pos == count && base + count == |input|
    {
      hide Window, Framed, TableOk, Steps, StateAt;
      StateIs(cp);
      Bounds();
      var amount := cp - text;
      SetPos(cp + 1);
      ret := GetNextBuffer();
      Bounds();
      if ret != AtEnd {
        SetPos(text + amount);
        StateIs(pos);
      }
    }

    lemma StateIs(cp: nat)
      requires Window() && text <= cp <= count
      ensures base + cp <= |input| && StateAt(cp) == Steps(nxt, start, input[base + text..base + cp])
    {
    }

    lemma AtLast()
      requires Window() && text <= pos == count && base + count == |input| && StateAt(pos) > 0
      ensures Run(nxt, start, input, base + text) == (StateAt(pos), |input|)
    {
      RunResumes(nxt, start, input, base + text, base + pos);
      RunAtEnd(nxt, StateAt(pos), input);
    }

    /** yyless: all but the first `n` characters of yytext are given back. */
    method Less(n: nat)
      requires Valid() && text + n <= pos
      modifies this`pos, this`hold, buf
      ensures Valid() && pos == text + n && At() == base + text + n
    {
      buf[pos] := hold;
      hold := buf[text + n];
      buf[text + n] := EOB;
      pos := text + n;
    }

    /** BEGIN. */
    method Begin(q: nat)
      requires Valid() && q > 0 && q != eob
      modifies this`start
      ensures Valid() && start == q && At() == old(At())
    {
      start := q;
    }
  }

  /** What an action does to the scanner: the next start state, and how much of the text it keeps. */
  ghost predicate ActionOk(action: (nat, seq<char>) -> (nat, nat), eob: nat) {
    forall s, t {:trigger action(s, t)} :: action(s, t).0 > 0 && action(s, t).0 != eob && action(s, t).1 <= |t|
  }

  /** The first `n` tokens of the input from position `p`, as one contiguous scan finds them. */
  function Tokens(nxt: (nat, char) -> int, action: (nat, seq<char>) -> (nat, nat), start: nat, input: seq<char>, p: nat, n: nat): seq<Found>
    requires p <= |input|
    decreases n
  {
    if n == 0 then []
    else if p == |input| then [EndOfFile]
    else
      var (s, j) := Run(nxt, start, input, p);
      var text := input[p..j];
      var (q, k) := action(s, text);
      [Token(s, text)] + if k <= |text| then Tokens(nxt, action, q, input, p + k, n - 1) else []
  }

  /** What a contiguous scan finds from where the scanner is. */
  ghost function Ahead(scanner: Scanner, action: (nat, seq<char>) -> (nat, nat), n: nat): seq<Found>
    requires scanner.At() <= |scanner.input|
    reads scanner
  {
    Tokens(scanner.nxt, action, scanner.start, scanner.input, scanner.At(), n)
  }

  /** The scanner driven by its actions: the tokens do not depend on how the input arrives. */
  method Scan(scanner: Scanner, action: (nat, seq<char>) -> (nat, nat), n: nat) returns (found: seq<Found>)
    requires scanner.Valid() && ActionOk(action, scanner.eob)
    modifies scanner, scanner.buf
    ensures old(scanner.At()) <= |scanner.input| && found == old(Ahead(scanner, action, n))
  {
    Located(scanner);
    ghost var all := Ahead(scanner, action, n);
    found := [];
    hide *;
    assert [] + all == all;
    var i := 0;
    while i < n
      invariant i <= n && scanner.Valid() && scanner.At() <= |scanner.input|
      invariant scanner.buf == old(scanner.buf) || fresh(scanner.buf)
      invariant found + Ahead(scanner, action, n - i) == all
    {
      ghost var ahead := Ahead(scanner, action, n - i);
      var r := Step(scanner, action, n - i);
      ghost var before := found;
      found := found + [r];
      if r.EndOfFile? {
        return;
      }
      Regroup(before, r, Ahead(scanner, action, n - i - 1));
      i := i + 1;
    }
    NothingAhead(scanner, action);
    assert found + [] == found;
  }

  lemma Regroup(x: seq<Found>, r: Found, y: seq<Found>)
    ensures x + ([r] + y) == (x + [r]) + y
  {
  }

  lemma NothingAhead(scanner: Scanner, action: (nat, seq<char>) -> (nat, nat))
    requires scanner.At() <= |scanner.input|
    ensures Ahead(scanner, action, 0) == []
  {
  }

  /** One token and its action. */
  method Step(scanner: Scanner, action: (nat, seq<char>) -> (nat, nat), ghost n: nat) returns (r: Found)
    requires scanner.Valid() && ActionOk(action, scanner.eob) && n > 0
    modifies scanner, scanner.buf
    ensures scanner.Valid() && (scanner.buf == old(scanner.buf) || fresh(scanner.buf))
    ensures old(scanner.At()) <= |scanner.input| && scanner.At() <= |scanner.input|
    ensures old(Ahead(scanner, action, n)) == if r.EndOfFile? then [r] else [r] + Ahead(scanner, action, n - 1)
  {
    Located(scanner);
    hide Scanner.Valid, Run, Tokens, ActionOk;
    TokensStep(scanner.nxt, action, scanner.start, scanner.input, scanner.At(), n);
    r := scanner.NextToken();
    if r.Token? {
      var (q, k) := action(r.state, r.text);
      ActionAt(action, scanner.eob, r.state, r.text);
      Continue(scanner, q, k);
    }
  }

  /** What the action leaves the scanner with. */
  method Continue(scanner: Scanner, q: nat, k: nat)
    requires scanner.Valid() && q > 0 && q != scanner.eob && scanner.text + k <= scanner.pos
    modifies scanner, scanner.buf
    ensures scanner.Valid() && scanner.buf == old(scanner.buf) && scanner.start == q
    ensures scanner.At() == old(scanner.base + scanner.text) + k <= |scanner.input|
  {
    scanner.Less(k);
    scanner.Begin(q);
    Located(scanner);
  }

  /** The first token of a contiguous scan. */
  lemma TokensStep(nxt: (nat, char) -> int, action: (nat, seq<char>) -> (nat, nat), start: nat, input: seq<char>, p: nat, n: nat)
    requires p <= |input| && n > 0
    ensures Tokens(nxt, action, start, input, p, n) ==
            if p == |input| then [EndOfFile]
            else
              var (s, j) := Run(nxt, start, input, p);
              var (q, k) := action(s, input[p..j]);
              [Token(s, input[p..j])] + if k <= j - p then Tokens(nxt, action, q, input, p + k, n - 1) else []
  {
  }

  lemma ActionAt(action: (nat, seq<char>) -> (nat, nat), eob: nat, s: nat, t: seq<char>)
    requires ActionOk(action, eob)
    ensures action(s, t).0 > 0 && action(s, t).0 != eob && action(s, t).1 <= |t|
  {
  }

  lemma Located(scanner: Scanner)
    requires scanner.Valid()
    ensures scanner.At() <= |scanner.input|
  {
  }
}
