/** The command lines a server accepts, as a grammar over words, and why it refuses every other line. */
module CommandGrammar {
  import opened HandoverWire
  import opened Words
  import opened Wrappers

  /** A number below 2^64 in decimal digits, possibly after a plus sign. */
  ghost predicate Denotes(w: string, n: nat) {
    && n < 0x1_0000_0000_0000_0000
    && exists digits: string | digits != "" && AllDigits(digits) ::
         (w == digits || w == "+" + digits) && Value(digits) == n
  }

  ghost predicate IsNumeral(w: string) { exists n: nat :: Denotes(w, n) }

  /** These words are a line for this command. */
  ghost predicate LineFor(ws: seq<string>, c: Command) {
    match c
    case Status => ws == ["status"]
    case Watch(t) => |ws| == 2 && ws[0] == "watch" && Denotes(ws[1], t)
    case Declare(n) => |ws| == 2 && ws[0] == "ready" && Denotes(ws[1], n)
    case CommitCmd(n, e) => |ws| == 3 && ws[0] == "commit" && Denotes(ws[1], n) && Denotes(ws[2], e)
    case AbortCmd(n, reason) => 2 <= |ws| && ws[0] == "abort" && Denotes(ws[1], n) && reason == Join(ws[2..])
    case ReclaimCmd(n, e) => |ws| == 3 && ws[0] == "reclaim" && Denotes(ws[1], n) && Denotes(ws[2], e)
  }

  /** Reading a word as a number succeeds exactly on numerals, and yields what they denote. */
  lemma ReadsNumerals(w: string)
    ensures forall n: nat :: ParseU64(w) == Some(n) <==> Denotes(w, n)
    ensures ParseU64(w).Some? <==> IsNumeral(w)
  {
    forall n: nat ensures ParseU64(w) == Some(n) <==> Denotes(w, n) { ReadsNumeral(w, n); }
    if ParseU64(w).Some? { assert Denotes(w, ParseU64(w).value); }
  }

  lemma ReadsNumeral(w: string, n: nat)
    ensures ParseU64(w) == Some(n) <==> Denotes(w, n)
  {
    if ParseU64(w) == Some(n) {
      var digits := if w != "" && w[0] == '+' then w[1..] else w;
      assert w == digits || w == "+" + digits;
      assert Denotes(w, n);
    }
    if Denotes(w, n) {
      var digits: string :|
        digits != "" && AllDigits(digits) && (w == digits || w == "+" + digits) && Value(digits) == n;
      if w == digits { assert IsDigit(w[0]); } else { assert w[1..] == digits; }
    }
  }

  /** Words are accepted as a command if and only if they are a line for that command. */
  lemma AcceptedExactly(ws: seq<string>, c: Command)
    ensures Meaning(ws) == Success(c) <==> LineFor(ws, c)
  {
    if 1 < |ws| { ReadsNumerals(ws[1]); }
    if 2 < |ws| { ReadsNumerals(ws[2]); }
  }

  /** A command with a connection; two of them name an epoch as well. */
  predicate TakesConnection(verb: string) { verb == "ready" || verb == "abort" || TakesEpoch(verb) }

  predicate TakesEpoch(verb: string) { verb == "commit" || verb == "reclaim" }

  predicate IsVerb(verb: string) { verb == "status" || verb == "watch" || TakesConnection(verb) }

  /** How many words a well-formed line of this verb has, but for a reason. */
  function WordsOfLine(verb: string): nat { if verb == "status" then 1 else if TakesEpoch(verb) then 3 else 2 }

  /** All words behind the verb that have to be numbers are. */
  ghost predicate NumeralsUpTo(ws: seq<string>, n: nat) { forall i | 1 <= i < n :: i < |ws| && IsNumeral(ws[i]) }

  /** Each complaint is about the first word that is missing, no number, or too many, and is made exactly then. */
  lemma RefusedExactly(ws: seq<string>)
    ensures var r := Meaning(ws);
      && (r == Failure(EmptyCommand) <==> ws == [])
      && (forall v :: r == Failure(UnknownCommand(v)) <==> ws != [] && !IsVerb(ws[0]) && v == ws[0])
      && (r == Failure(MissingTimeout) <==> ws == ["watch"])
      && (r == Failure(BadTimeout) <==> 1 < |ws| && ws[0] == "watch" && !IsNumeral(ws[1]))
      && (r == Failure(MissingConnection) <==> |ws| == 1 && TakesConnection(ws[0]))
      && (r == Failure(BadConnection) <==> 1 < |ws| && TakesConnection(ws[0]) && !IsNumeral(ws[1]))
      && (r == Failure(MissingEpoch) <==> |ws| == 2 && TakesEpoch(ws[0]) && IsNumeral(ws[1]))
      && (r == Failure(BadEpoch) <==> 2 < |ws| && TakesEpoch(ws[0]) && IsNumeral(ws[1]) && !IsNumeral(ws[2]))
  {
    if 1 < |ws| { ReadsNumerals(ws[1]); }
    if 2 < |ws| { ReadsNumerals(ws[2]); }
  }

  /** The first word too many is complained about exactly if all words before it are in order. */
  lemma TrailingExactly(ws: seq<string>, word: string)
    ensures Meaning(ws) == Failure(TrailingArgument(word)) <==>
        && ws != [] && IsVerb(ws[0]) && ws[0] != "abort" && WordsOfLine(ws[0]) < |ws|
        && NumeralsUpTo(ws, WordsOfLine(ws[0])) && word == ws[WordsOfLine(ws[0])]
  {
    if 1 < |ws| { ReadsNumerals(ws[1]); }
    if 2 < |ws| { ReadsNumerals(ws[2]); }
  }
}
