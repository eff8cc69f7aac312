/** The lines of the hand-over protocol: commands, replies, and the status a reply carries. */
module HandoverWire {
  import opened Bytes
  import opened Ownership
  import opened Words
  import opened Wrappers

  // ---------------------------------------------------------------------
  // Commands
  // ---------------------------------------------------------------------

  datatype Command =
    | Status
    | Watch(timeoutMs: nat)
    | Declare(conn: nat)
    | CommitCmd(conn: nat, epoch: nat)
    | AbortCmd(conn: nat, reason: string)
    | ReclaimCmd(conn: nat, epoch: nat)

  datatype ProtocolError =
    | EmptyCommand
    | MissingConnection | BadConnection
    | MissingEpoch | BadEpoch
    | MissingTimeout | BadTimeout
    | UnknownCommand(verb: string)
    | TrailingArgument(word: string)
    | UnexpectedReply
    | NoCode

  predicate Fits(c: Command) {
    match c
    case Status => true
    case Watch(t) => t < TWO_64
    case Declare(n) => n < TWO_64
    case CommitCmd(n, e) => n < TWO_64 && e < TWO_64
    case AbortCmd(n, _) => n < TWO_64
    case ReclaimCmd(n, e) => n < TWO_64 && e < TWO_64
  }

  /** Free text with line breaks turned into spaces. */
  function Flattened(s: string): (r: string)
    ensures OneLine(r) && SameButSpaces(s, r)
  {
    seq(|s|, i requires 0 <= i < |s| => if s[i] == '\n' || s[i] == '\r' then ' ' else s[i])
  }

  function Encode(c: Command): string {
    match c
    case Status => "status"
    case Watch(t) => "watch " + Show(t)
    case Declare(n) => "ready " + Show(n)
    case CommitCmd(n, e) => "commit " + Show(n) + " " + Show(e)
    case AbortCmd(n, reason) =>
      if reason == "" then "abort " + Show(n) else "abort " + Show(n) + " " + Flattened(reason)
    case ReclaimCmd(n, e) => "reclaim " + Show(n) + " " + Show(e)
  }

  /** A cursor over the words of a line. */
  class WordIterator {
    var words: seq<string>

    constructor (line: string)
      ensures words == Split(line)
    {
      words := Split(line);
    }

    method Next() returns (w: Option<string>)
      modifies this
      ensures old(words) == [] ==> w == None && words == []
      ensures old(words) != [] ==> w == Some(old(words)[0]) && words == old(words)[1..]
    {
      if words == [] {
        return None;
      }
      w := Some(words[0]);
      words := words[1..];
    }

    /** The next word as a number, or one of two complaints. */
    method Number(missing: ProtocolError, bad: ProtocolError) returns (r: Result<nat, ProtocolError>)
      modifies this
      ensures r == NumberAt(old(words), 0, missing, bad)
      ensures old(words) != [] ==> words == old(words)[1..]
    {
      var w := Next();
      if w == None {
        return Failure(missing);
      }
      var n := ParseU64(w.value);
      return if n.Some? then Success(n.value) else Failure(bad);
    }
  }

  function NumberAt(ws: seq<string>, i: nat, missing: ProtocolError, bad: ProtocolError): Result<nat, ProtocolError> {
    if |ws| <= i then Failure(missing)
    else if ParseU64(ws[i]).None? then Failure(bad)
    else Success(ParseU64(ws[i]).value)
  }

  function ConnAt(
    ws: seq<string>, i: nat): Result<nat, ProtocolError> { NumberAt(ws, i, MissingConnection, BadConnection) }

  function EpochAt(ws: seq<string>, i: nat): Result<nat, ProtocolError> { NumberAt(ws, i, MissingEpoch, BadEpoch) }

  function TimeoutAt(
    ws: seq<string>, i: nat): Result<nat, ProtocolError> { NumberAt(ws, i, MissingTimeout, BadTimeout) }

  /** A command of `n` words; anything behind it is an error. */
  function Exactly(ws: seq<string>, n: nat, c: Command): Result<Command, ProtocolError> {
    if n < |ws| then Failure(TrailingArgument(ws[n])) else Success(c)
  }

  function PairOf(ws: seq<string>, make: (nat, nat) -> Command): Result<Command, ProtocolError> {
    match (ConnAt(ws, 1), EpochAt(ws, 2))
    case (Failure(e), _) => Failure(e)
    case (_, Failure(e)) => Failure(e)
    case (Success(n), Success(e)) => Exactly(ws, 3, make(n, e))
  }

  function CommitOf(n: nat, e: nat): Command { CommitCmd(n, e) }

  function ReclaimOf(n: nat, e: nat): Command { ReclaimCmd(n, e) }

  /** What the words of a line mean, by their number and place. */
  function Meaning(ws: seq<string>): Result<Command, ProtocolError> {
    if ws == [] then Failure(EmptyCommand)
    else if ws[0] == "status" then Exactly(ws, 1, Status)
    else if ws[0] == "watch" then
      (match TimeoutAt(ws, 1) case Failure(e) => Failure(e) case Success(t) => Exactly(ws, 2, Watch(t)))
    else if ws[0] == "ready" then
      (match ConnAt(ws, 1) case Failure(e) => Failure(e) case Success(n) => Exactly(ws, 2, Declare(n)))
    else if ws[0] == "commit" then PairOf(ws, CommitOf)
    else if ws[0] == "abort" then
      (match ConnAt(ws, 1) case Failure(e) => Failure(e) case Success(n) => Success(AbortCmd(n, Join(ws[2..]))))
    else if ws[0] == "reclaim" then PairOf(ws, ReclaimOf)
    else Failure(UnknownCommand(ws[0]))
  }

  method ParsePair(words: WordIterator, commit: bool) returns (r: Result<Command, ProtocolError>)
    modifies words
    ensures forall verb :: r == PairWith([verb] + old(words.words), commit)
  {
    ghost var ws := words.words;
    var conn := words.Number(MissingConnection, BadConnection);
    if conn.Failure? {
      return Failure(conn.error);
    }
    var epoch := words.Number(MissingEpoch, BadEpoch);
    if epoch.Failure? {
      return Failure(epoch.error);
    }
    var extra := words.Next();
    if extra.Some? {
      return Failure(TrailingArgument(extra.value));
    }
    return Success(if commit then CommitCmd(conn.value, epoch.value) else ReclaimCmd(conn.value, epoch.value));
  }

  function PairWith(ws: seq<string>, commit: bool): Result<Command, ProtocolError> {
    if commit then PairOf(ws, CommitOf) else PairOf(ws, ReclaimOf)
  }

  method ParseCommand(line: string) returns (r: Result<Command, ProtocolError>)
    ensures r == Meaning(Split(line))
  {
    ghost var all := Split(line);
    var words := new WordIterator(line);
    var verb := words.Next();
    if verb == None {
      return Failure(EmptyCommand);
    }
    assert all == [verb.value] + words.words;
    var command;
    if verb.value == "status" {
      command := Status;
    } else if verb.value == "watch" {
      var t := words.Number(MissingTimeout, BadTimeout);
      if t.Failure? {
        return Failure(t.error);
      }
      command := Watch(t.value);
    } else if verb.value == "ready" {
      var n := words.Number(MissingConnection, BadConnection);
      if n.Failure? {
        return Failure(n.error);
      }
      command := Declare(n.value);
    } else if verb.value == "abort" {
      var n := words.Number(MissingConnection, BadConnection);
      if n.Failure? {
        return Failure(n.error);
      }
      return Success(AbortCmd(n.value, Join(words.words)));
    } else if verb.value == "commit" || verb.value == "reclaim" {
      r := ParsePair(words, verb.value == "commit");
      return r;
    } else {
      return Failure(UnknownCommand(verb.value));
    }
    var extra := words.Next();
    if extra.Some? {
      return Failure(TrailingArgument(extra.value));
    }
    return Success(command);
  }

  /** What comes back from the wire: the same command, an abort reason with its whitespace normalised. */
  function Canonical(c: Command): Command {
    match c
    case AbortCmd(n, reason) => AbortCmd(n, Normalised(reason))
    case _ => c
  }

  lemma Verbs()
    ensures IsWord("status") && IsWord("watch") && IsWord("ready") && IsWord("commit") && IsWord("abort")
    ensures IsWord("reclaim")
  {
  }

  /** The words of an encoded command. */
  function WordsOf(c: Command): seq<string> {
    match c
    case Status => ["status"]
    case Watch(t) => ["watch", Show(t)]
    case Declare(n) => ["ready", Show(n)]
    case CommitCmd(n, e) => ["commit", Show(n), Show(e)]
    case AbortCmd(n, reason) => ["abort", Show(n)] + Split(reason)
    case ReclaimCmd(n, e) => ["reclaim", Show(n), Show(e)]
  }

  lemma {:induction false} TwoWords(verb: string, a: string)
    requires IsWord(verb) && IsWord(a)
    ensures Split(verb + " " + a) == [verb, a]
  {
    SplitWordThen(verb, a);
    SplitOneWord(a);
  }

  lemma {:induction false} ThreeWords(verb: string, a: string, rest: string)
    requires IsWord(verb) && IsWord(a)
    ensures Split(verb + " " + a + " " + rest) == [verb, a] + Split(rest)
  {
    SplitWordThen(a, rest);
    SplitWordThen(verb, a + " " + rest);
    Regrouped(verb + " ", a + " ", rest);
    Regrouped(verb + " ", a, " ");
    assert verb + " " + (a + " " + rest) == verb + " " + (a + " ") + rest;
  }

  lemma EncodedWords(c: Command)
    ensures Split(Encode(c)) == WordsOf(c)
  {
    Verbs();
    match c
    case Status => SplitOneWord("status");
    case Watch(t) =>
      NumbersRoundTrip(t);
      TwoWords("watch", Show(t));
      assert "watch" + " " == "watch ";
    case Declare(n) =>
      NumbersRoundTrip(n);
      TwoWords("ready", Show(n));
      assert "ready" + " " == "ready ";
    case CommitCmd(n, e) =>
      NumbersRoundTrip(n);
      NumbersRoundTrip(e);
      ThreeWords("commit", Show(n), Show(e));
      SplitOneWord(Show(e));
      assert "commit" + " " == "commit ";
    case ReclaimCmd(n, e) =>
      NumbersRoundTrip(n);
      NumbersRoundTrip(e);
      ThreeWords("reclaim", Show(n), Show(e));
      SplitOneWord(Show(e));
      assert "reclaim" + " " == "reclaim ";
    case AbortCmd(n, reason) =>
      NumbersRoundTrip(n);
      assert "abort" + " " == "abort ";
      if reason == "" {
        TwoWords("abort", Show(n));
      } else {
        ThreeWords("abort", Show(n), Flattened(reason));
        SameWords(reason, Flattened(reason));
      }
  }

  lemma {:induction false} PairsReadBack(verb: string, n: nat, e: nat)
    requires n < TWO_64 && e < TWO_64
    ensures var ws := [verb, Show(n), Show(e)];
      PairOf(ws, CommitOf) == Success(CommitCmd(n, e)) && PairOf(ws, ReclaimOf) == Success(ReclaimCmd(n, e))
  {
    NumbersRoundTrip(n);
    NumbersRoundTrip(e);
  }

  /** Every command over 64-bit numbers comes back from its line, with the reason's whitespace normalised. */
  lemma CommandsRoundTrip(c: Command)
    requires Fits(c)
    ensures Meaning(Split(Encode(c))) == Success(Canonical(c))
  {
    EncodedWords(c);
    match c
    case Status =>
    case Watch(t) => NumbersReadBack(t);
    case Declare(n) => NumbersReadBack(n);
    case CommitCmd(n, e) => PairsReadBack("commit", n, e);
    case ReclaimCmd(n, e) => PairsReadBack("reclaim", n, e);
    case AbortCmd(n, reason) => AbortReadsBack(n, reason);
  }

  lemma {:induction false} NumbersReadBack(n: nat)
    requires n < TWO_64
    ensures Meaning(["watch", Show(n)]) == Success(Watch(n)) && Meaning(["ready", Show(n)]) == Success(Declare(n))
  {
    NumbersRoundTrip(n);
  }

  lemma {:induction false} AbortReadsBack(n: nat, reason: string)
    requires n < TWO_64
    ensures Meaning(["abort", Show(n)] + Split(reason)) == Success(AbortCmd(n, Normalised(reason)))
  {
    var ws := ["abort", Show(n)] + Split(reason);
    NumbersRoundTrip(n);
    assert ws[2..] == Split(reason);
  }

  /** An accepted line, however it was spelt, stands for a command that its own encoding brings back unchanged. */
  lemma {:induction false} AcceptedLinesAreCanonical(line: string)
    requires Meaning(Split(line)).Success?
    ensures var c := Meaning(Split(line)).value; Fits(c) && Canonical(c) == c && Meaning(Split(Encode(c))) == Success(c)
  {
    var ws := Split(line);
    var c := Meaning(ws).value;
    if c.AbortCmd? {
      assert AllWords(ws[2..]);
      JoinSplits(ws[2..]);
    }
    CommandsRoundTrip(c);
  }

  /** No command breaks the line, whatever the reason says. */
  lemma EncodedIsOneLine(c: Command)
    ensures OneLine(Encode(c))
  {
    match c
    case Status =>
    case Watch(t) => DigitsAreOneLine(t);
    case Declare(n) => DigitsAreOneLine(n);
    case CommitCmd(n, e) => DigitsAreOneLine(n); DigitsAreOneLine(e);
    case ReclaimCmd(n, e) => DigitsAreOneLine(n); DigitsAreOneLine(e);
    case AbortCmd(n, reason) => DigitsAreOneLine(n);
  }

  lemma {:induction false} DigitsAreOneLine(n: nat)
    ensures OneLine(Show(n))
  {
    assert forall i | 0 <= i < |Show(n)| :: IsDigit(Show(n)[i]);
  }
}
