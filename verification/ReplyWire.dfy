/** Replies of the hand-over protocol, and when one survives the way to the client. */
module ReplyWire {
  import opened HandoverWire
  import opened Words
  import opened Wrappers

  datatype HandoverReply = Ok(body: string) | Err(code: string, detail: string)

  function EncodeReply(r: HandoverReply): string {
    match r
    case Ok(body) => "ok " + body
    case Err(code, detail) => "err code=" + code + " " + ("detail=" + detail)
  }

  function TrimStart(s: string): string { if s != "" && IsSpace(s[0]) then TrimStart(s[1..]) else s }

  /** Code and detail as read so far. */
  datatype Fields = Fields(code: string, detail: string)

  predicate HasKey(word: string) { "code=" <= word || "detail=" <= word }

  function ReadWord(f: Fields, word: string): Fields {
    if "code=" <= word then f.(code := word[5..])
    else if "detail=" <= word then f.(detail := word[7..])
    else if f.detail != "" then f.(detail := f.detail + " " + word)
    else f
  }

  function ReadWords(f: Fields, words: seq<string>, n: nat): Fields
    requires n <= |words|
  {
    if n == 0 then f else ReadWord(ReadWords(f, words, n - 1), words[n - 1])
  }

  function ReadReply(line: string): Result<HandoverReply, ProtocolError> {
    if "ok" <= line then Success(Ok(TrimStart(line[2..])))
    else if !("err" <= line) then Failure(UnexpectedReply)
    else
      var words := Split(line[3..]);
      var f := ReadWords(Fields("", ""), words, |words|);
      if f.code == "" then Failure(NoCode) else Success(Err(f.code, f.detail))
  }

  method ParseReply(line: string) returns (r: Result<HandoverReply, ProtocolError>)
    ensures r == ReadReply(line)
  {
    if "ok" <= line {
      return Success(Ok(TrimStart(line[2..])));
    }
    if !("err" <= line) {
      return Failure(UnexpectedReply);
    }
    var words := Split(line[3..]);
    var code, detail := "", "";
    for i := 0 to |words|
      invariant Fields(code, detail) == ReadWords(Fields("", ""), words, i)
    {
      var word := words[i];
      if "code=" <= word {
        code := word[5..];
      } else if "detail=" <= word {
        detail := word[7..];
      } else if detail != "" {
        detail := detail + " " + word;
      }
    }
    return if code == "" then Failure(NoCode) else Success(Err(code, detail));
  }

  // ---------------------------------------------------------------------
  // Bodies
  // ---------------------------------------------------------------------

  lemma {:induction false} TrimStartKeepsUntrimmed(s: string)
    ensures TrimStart(s) == s <==> s == "" || !IsSpace(s[0])
    ensures |TrimStart(s)| <= |s|
  {
    if s != "" && IsSpace(s[0]) { TrimStartKeepsUntrimmed(s[1..]); }
  }

  /** A body comes back exactly if it does not start with whitespace. */
  lemma BodiesRoundTrip(body: string)
    ensures ReadReply(EncodeReply(Ok(body))) == Success(Ok(body)) <==> body == "" || !IsSpace(body[0])
  {
    var line := "ok " + body;
    assert "ok" <= line && line[2..] == " " + body;
    assert (" " + body)[1..] == body;
    TrimStartKeepsUntrimmed(body);
  }

  // ---------------------------------------------------------------------
  // Errors
  // ---------------------------------------------------------------------

  /** The value of the last word that gives a code, or nothing. */
  function CodeGiven(words: seq<string>): string {
    if words == [] then ""
    else
      var last := words[|words| - 1];
      if "code=" <= last then last[5..] else CodeGiven(words[..|words| - 1])
  }

  lemma {:induction false} CodeIsGivenLast(words: seq<string>, n: nat)
    requires n <= |words|
    ensures ReadWords(Fields("", ""), words, n).code == CodeGiven(words[..n])
  {
    if n > 0 {
      CodeIsGivenLast(words, n - 1);
      assert words[..n][..n - 1] == words[..n - 1];
    }
  }

  /** A line is refused exactly if it starts with neither word, or is an error that gives no code. */
  lemma {:induction false} RefusedExactly(line: string)
    ensures ReadReply(line) == Failure(UnexpectedReply) <==> !("ok" <= line) && !("err" <= line)
    ensures ReadReply(line) == Failure(NoCode) <==> "err" <= line && CodeGiven(Split(line[3..])) == ""
    ensures "err" <= line && CodeGiven(Split(line[3..])) != "" ==>
      var r := ReadReply(line);
      r.Success? && r.value.Err? && r.value.code == CodeGiven(Split(line[3..]))
  {
    if "err" <= line {
      var words := Split(line[3..]);
      CodeIsGivenLast(words, |words|);
      assert words[..|words|] == words;
      assert line[0] != "ok"[0];
    }
  }

  /** The words of an error line. */
  lemma {:induction false} ErrorWords(code: string, detail: string)
    requires IsWord(code)
    ensures "err" <= EncodeReply(Err(code, detail)) && !("ok" <= EncodeReply(Err(code, detail)))
    ensures Split(EncodeReply(Err(code, detail))[3..]) == ["code=" + code] + Split("detail=" + detail)
  {
    var line := EncodeReply(Err(code, detail));
    var w, rest := "code=" + code, "detail=" + detail;
    assert line[3..] == " " + (w + " " + rest);
    assert (" " + (w + " " + rest))[1..] == w + " " + rest;
    KeyedWord("code=", code);
    SplitWordThen(w, rest);
    assert "ok"[0] != line[0];
  }

  /** What a client makes of an error line. */
  lemma {:induction false} ErrorReads(code: string, detail: string)
    requires IsWord(code)
    ensures var words := ["code=" + code] + Split("detail=" + detail);
      var f := ReadWords(Fields("", ""), words, |words|);
      ReadReply(EncodeReply(Err(code, detail))) == if f.code == "" then Failure(NoCode)
        else Success(Err(f.code, f.detail))
  {
    ErrorWords(code, detail);
  }

  /** No word behind the first is taken for a key. */
  ghost predicate Keyless(ws: seq<string>) { KeylessUpTo(ws, |ws|) }

  ghost predicate KeylessUpTo(ws: seq<string>, n: nat)
    requires n <= |ws|
  {
    forall i | 1 <= i < n :: !HasKey(ws[i])
  }

  /** The joined first words of a detail, as reading them builds it up. */
  function Gathered(ws: seq<string>, n: nat): string
    requires 1 <= n <= |ws|
  {
    if n == 1 then ws[0] else Gathered(ws, n - 1) + " " + ws[n - 1]
  }

  lemma {:induction false} GatheredFromTail(ws: seq<string>, n: nat)
    requires 2 <= n <= |ws|
    ensures Gathered(ws, n) == ws[0] + " " + Gathered(ws[1..], n - 1)
  {
    if n > 2 {
      GatheredFromTail(ws, n - 1);
    }
  }

  lemma {:induction false} GatheredIsJoin(ws: seq<string>)
    requires ws != []
    ensures Gathered(ws, |ws|) == Join(ws)
  {
    if |ws| > 1 {
      GatheredIsJoin(ws[1..]);
      GatheredFromTail(ws, |ws|);
    }
  }

  /** A word behind a detail makes it longer by itself and a space, and by less if it carries a key. */
  lemma WordExtendsDetail(f: Fields, word: string)
    ensures |ReadWord(f, word).detail| <= |f.detail| + 1 + |word|
    ensures HasKey(word) ==> |ReadWord(f, word).detail| < |f.detail| + 1 + |word|
    ensures !HasKey(word) && f.detail != "" ==> ReadWord(f, word) == f.(detail := f.detail + " " + word)
  {
  }

  lemma {:induction false} GatheredIsNotEmpty(ws: seq<string>, n: nat)
    requires 1 <= n <= |ws| && AllWords(ws)
    ensures Gathered(ws, n) != ""
  {
  }

  /** Reading a detail word by word rebuilds it as long as no word carries a key; a word that does makes it shorter. */
  lemma {:induction false} ReadingDetail(code: string, ws: seq<string>, words: seq<string>, n: nat)
    requires 1 <= n <= |ws| && AllWords(ws) && IsWord(code)
    requires words == ["code=" + code, "detail=" + ws[0]] + ws[1..]
    ensures var f := ReadWords(Fields("", ""), words, n + 1);
      if KeylessUpTo(ws, n)
      then f == Fields(code, Gathered(ws, n))
      else |f.detail| < |Gathered(ws, n)|
  {
    if n == 1 {
      FirstTwoWords(code, ws[0], words);
    } else {
      ReadingDetail(code, ws, words, n - 1);
      assert words[n] == ws[n - 1];
      assert KeylessUpTo(ws, n) <==> KeylessUpTo(ws, n - 1) && !HasKey(ws[n - 1]);
      GatheredIsNotEmpty(ws, n - 1);
      WordExtendsDetail(ReadWords(Fields("", ""), words, n), ws[n - 1]);
    }
  }

  lemma {:induction false} FirstTwoWords(code: string, first: string, words: seq<string>)
    requires 2 <= |words| && words[0] == "code=" + code && words[1] == "detail=" + first
    ensures ReadWords(Fields("", ""), words, 2) == Fields(code, first)
  {
    assert ReadWords(Fields("", ""), words, 1) == Fields(code, "") by { assert words[0][5..] == code; }
    assert words[1][7..] == first && words[1][0] != "code="[0];
  }

  lemma {:induction false} ReadBackExactly(code: string, detail: string, ws: seq<string>, words: seq<string>)
    requires IsWord(code) && ws == Split(detail) && ws != []
    requires words == ["code=" + code] + (["detail=" + ws[0]] + ws[1..])
    ensures ReadWords(Fields("", ""), words, |words|) == Fields(code, detail) <==> detail == Join(ws) && Keyless(ws)
  {
    assert words == ["code=" + code, "detail=" + ws[0]] + ws[1..];
    ReadingDetail(code, ws, words, |ws|);
    GatheredIsJoin(ws);
    NormalisedIsNoLonger(detail);
  }

  /** The words of an error line give back code and detail exactly for details like these. */
  lemma {:induction false} WordsGiveBack(code: string, detail: string, words: seq<string>)
    requires IsWord(code) && words == ["code=" + code] + Split("detail=" + detail)
    ensures ReadWords(Fields("", ""), words, |words|) == Fields(code, detail) <==>
      detail == Normalised(detail) && Keyless(Split(detail))
  {
    if detail == "" {
      KeyAlone("detail=");
      FirstTwoWords(code, "", words);
    } else if IsSpace(detail[0]) {
      KeyedWord("code=", code);
      DetailNeverStartsWithSpace(words, |words|);
      NormalisedStartsWithWord(detail);
    } else {
      KeySticksToFirstWord("detail=", detail);
      ReadBackExactly(code, detail, Split(detail), words);
    }
  }

  /**
   * An error comes back exactly if its detail has normalised whitespace and no word behind the first
   * looks like a field of the reply; the codes of the protocol are single words.
   */
  lemma {:induction false} ErrorsRoundTripExactly(code: string, detail: string)
    requires IsWord(code)
    ensures ReadReply(EncodeReply(Err(code, detail))) == Success(Err(code, detail)) <==>
      detail == Normalised(detail) && Keyless(Split(detail))
  {
    ErrorReads(code, detail);
    WordsGiveBack(code, detail, ["code=" + code] + Split("detail=" + detail));
  }

  lemma {:induction false} KeyAlone(key: string)
    requires IsWord(key)
    ensures Split(key + "") == [key + ""]
  {
    assert key + "" == key;
    SplitOneWord(key);
  }

  lemma {:induction false} DetailNeverStartsWithSpace(words: seq<string>, n: nat)
    requires AllWords(words) && n <= |words|
    ensures var d := ReadWords(Fields("", ""), words, n).detail; d == "" || !IsSpace(d[0])
  {
    if n > 0 {
      DetailNeverStartsWithSpace(words, n - 1);
      assert IsWord(words[n - 1]);
    }
  }

  lemma NormalisedStartsWithWord(s: string)
    ensures Normalised(s) == "" || !IsSpace(Normalised(s)[0])
  {
    var ws := Split(s);
    if ws != [] { assert IsWord(ws[0]); }
  }

  /** A detail that quotes a field of the reply is read as that field. */
  lemma QuotedFieldIsMistaken()
    ensures var detail := Join(["a", "code=b"]);
      detail == Normalised(detail) && ReadReply(EncodeReply(Err("E", detail))) != Success(Err("E", detail))
  {
    var ws := ["a", "code=b"];
    JoinSplits(ws);
    QuotedKey("b");
    assert !Keyless(ws) by { assert HasKey(ws[1]); }
    ErrorsRoundTripExactly("E", Join(ws));
  }

  lemma QuotedKey(v: string)
    ensures HasKey("code=" + v) && "code=" + "b" == "code=b"
  {
  }
}
