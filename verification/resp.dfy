/** The Redis protocol: the command printer, the reply reader, and how they fit together. */
module Resp {
  import opened Bytes
  import opened Options

  const CR: Byte := 13
  const LF: Byte := 10
  const CRLF: seq<Byte> := [CR, LF]

  // ----- Decimal numbers -----

  predicate IsDigit(b: Byte) { 48 <= b <= 57 }

  function Decimal(n: nat): (s: seq<Byte>)
    ensures s != [] && forall k :: 0 <= k < |s| ==> IsDigit(s[k])
  {
    if n < 10 then [48 + n] else Decimal(n / 10) + [48 + n % 10]
  }

  /** Digits as Python's `int` reads them: single underscores may stand between digits. */
  function Digits(s: seq<Byte>): Option<nat> {
    if s == [] || !IsDigit(s[|s| - 1]) then None
    else if |s| == 1 then Some(s[0] - 48)
    else
      var before := if s[|s| - 2] == 95 then s[..|s| - 2] else s[..|s| - 1];
      var high := Digits(before);
      if high.None? then None else Some(high.value * 10 + (s[|s| - 1] - 48))
  }

  predicate IsSpace(b: Byte) { b == 32 || 9 <= b <= 13 }

  function Strip(s: seq<Byte>): seq<Byte> {
    if s != [] && IsSpace(s[0]) then Strip(s[1..])
    else if s != [] && IsSpace(s[|s| - 1]) then Strip(s[..|s| - 1])
    else s
  }

  /** Python's `int` on bytes: spaces stripped, an optional sign, then digits. */
  function ToInt(s: seq<Byte>): Option<int> {
    var t := Strip(s);
    if t == [] then None
    else if t[0] == 45 then (match Digits(t[1..]) case None => None case Some(n) => Some(0 - n as int))
    else if t[0] == 43 then (match Digits(t[1..]) case None => None case Some(n) => Some(n))
    else match Digits(t) case None => None case Some(n) => Some(n)
  }

  lemma {:induction false} DigitsOfDecimal(n: nat)
    ensures Digits(Decimal(n)) == Some(n)
  {
    if n >= 10 {
      var s := Decimal(n);
      DigitsOfDecimal(n / 10);
      assert s[..|s| - 1] == Decimal(n / 10) && IsDigit(s[|s| - 2]);
    }
  }

  lemma ToIntOfDecimal(n: nat)
    ensures ToInt(Decimal(n)) == Some(n)
  {
    var s := Decimal(n);
    assert IsDigit(s[0]) && IsDigit(s[|s| - 1]) && Strip(s) == s;
    DigitsOfDecimal(n);
  }

  // ----- Lines and counted reads -----

  function LfAt(s: seq<Byte>): (i: nat)
    ensures i <= |s|
  {
    if s == [] || s[0] == LF then 0 else 1 + LfAt(s[1..])
  }

  datatype Line = Line(text: seq<Byte>) | NoData | BadLine

  /** A line without its line end. */
  function Ended(line: seq<Byte>): (r: Line)
    ensures r.Line? ==> |line| >= 2 && line[|line| - 1] == LF
  {
    if |line| >= 2 && line[|line| - 2..] == CRLF then
      assert line[|line| - 2..][1] == line[|line| - 1];
      Line(line[..|line| - 2])
    else BadLine
  }

  /** One line up to and including the first line feed, or what is left of the stream; then the unread bytes. */
  function ReadLine(s: seq<Byte>): (r: (Line, seq<Byte>))
    ensures |r.1| <= |s| && (r.0.Line? ==> |r.1| < |s|)
  {
    if s == [] then (NoData, [])
    else
      var end := if LfAt(s) < |s| then LfAt(s) + 1 else |s|;
      (Ended(s[..end]), s[end..])
  }

  lemma {:induction false} LfAtFirst(a: seq<Byte>, b: seq<Byte>)
    requires forall k :: 0 <= k < |a| ==> a[k] != LF
    ensures LfAt(a + b) == |a| + LfAt(b)
  {
    if a == [] { assert a + b == b; } else { assert (a + b)[1..] == a[1..] + b; LfAtFirst(a[1..], b); }
  }

  lemma {:induction false} LfAtStays(s: seq<Byte>, t: seq<Byte>)
    requires LfAt(s) < |s|
    ensures LfAt(s + t) == LfAt(s)
  {
    if s[0] != LF { assert (s + t)[1..] == s[1..] + t; LfAtStays(s[1..], t); }
  }

  lemma {:induction false} LfAtIsLf(s: seq<Byte>)
    ensures LfAt(s) < |s| ==> s[LfAt(s)] == LF
    ensures forall k :: 0 <= k < LfAt(s) ==> s[k] != LF
  {
    if s != [] && s[0] != LF { LfAtIsLf(s[1..]); assert forall k :: 0 < k < |s| ==> s[k] == s[1..][k - 1]; }
  }

  lemma ReadLineOf(text: seq<Byte>, rest: seq<Byte>)
    requires forall k :: 0 <= k < |text| ==> text[k] != LF
    ensures ReadLine(text + CRLF + rest) == (Line(text), rest)
  {
    var s := text + CRLF + rest;
    assert s == (text + [CR]) + ([LF] + rest);
    LfAtFirst(text + [CR], [LF] + rest);
    assert s[..|text| + 2] == text + CRLF && s[|text| + 2..] == rest;
  }

  lemma LineHasLf(s: seq<Byte>)
    ensures ReadLine(s).0.Line? ==> LfAt(s) < |s|
  {
    LfAtIsLf(s);
    assert s[..|s|] == s;
  }

  lemma ReadLineExtends(s: seq<Byte>, t: seq<Byte>)
    requires ReadLine(s).0.Line?
    ensures ReadLine(s + t) == (ReadLine(s).0, ReadLine(s).1 + t)
  {
    LineHasLf(s);
    LfAtStays(s, t);
    var end := LfAt(s) + 1;
    assert (s + t)[..end] == s[..end] && (s + t)[end..] == s[end..] + t;
  }

  // ----- Replies -----

  datatype Reply = Nil | Int(value: int) | Text(text: string) | Array(items: seq<Reply>)

  datatype Outcome = Got(reply: Reply) | Closed | Malformed | BadText | ServerError(message: string)

  type Decoder = seq<Byte> -> Option<string>

  function AsText(decode: Decoder, bytes: seq<Byte>): Outcome {
    match decode(bytes) case Some(text) => Got(Text(text)) case None => BadText
  }

  /** A bulk string of a known length: that many bytes and a line end. */
  function ReadBulk(decode: Decoder, length: int, s: seq<Byte>): (r: (Outcome, seq<Byte>))
    ensures |r.1| <= |s|
  {
    if length < 0 then (Malformed, s)
    else
      var taken := if length <= |s| then length else |s|;
      var ended := if taken + 2 <= |s| then taken + 2 else |s|;
      if taken == length && s[taken..ended] == CRLF then (AsText(decode, s[..taken]), s[ended..])
      else (Malformed, s[ended..])
  }

  /** What `read_resp` returns or raises on a stream, and the bytes it leaves unread. */
  function Parse(decode: Decoder, s: seq<Byte>): (r: (Outcome, seq<Byte>))
    ensures |r.1| <= |s| && (r.0.Got? ==> |r.1| < |s|)
    decreases |s|, 0, 0
  {
    if s == [] then (Closed, [])
    else if s[0] !in [43, 45, 58, 36, 42] then (Malformed, s[1..])
    else WithLine(decode, s[0], ReadLine(s[1..]).0, ReadLine(s[1..]).1)
  }

  /** The line after the prefix: a text, or a number. */
  function WithLine(decode: Decoder, prefix: Byte, line: Line, rest: seq<Byte>): (r: (Outcome, seq<Byte>))
    ensures |r.1| <= |rest|
    decreases |rest|, 3, 0
  {
    if line.NoData? then (Closed, rest)
    else if line.BadLine? then (Malformed, rest)
    else if prefix == 43 then (AsText(decode, line.text), rest)
    else if prefix == 45 then
      (match decode(line.text) case Some(m) => (ServerError(m), rest) case None => (BadText, rest))
    else match ToInt(line.text) case None => (Malformed, rest) case Some(n) => WithNumber(decode, prefix, n, rest)
  }

  /** The number itself, or what it is the length of. */
  function WithNumber(decode: Decoder, prefix: Byte, n: int, rest: seq<Byte>): (r: (Outcome, seq<Byte>))
    ensures |r.1| <= |rest|
    decreases |rest|, 2, 0
  {
    if prefix == 58 then (Got(Int(n)), rest)
    else if n == -1 then (Got(Nil), rest)
    else if prefix == 36 then ReadBulk(decode, n, rest)
    else
      var many := ParseMany(decode, rest, if n < 0 then 0 else n);
      if many.0.Read? then (Got(Array(many.0.items)), many.1) else (many.0.failure, many.1)
  }

  datatype Items = Read(items: seq<Reply>) | Failed(failure: Outcome)

  function ParseMany(decode: Decoder, s: seq<Byte>, n: nat): (r: (Items, seq<Byte>))
    ensures |r.1| <= |s| && (r.0.Failed? ==> !r.0.failure.Got?)
    decreases |s|, 1, n
  {
    if n == 0 then (Read([]), s)
    else
      var (before, rest) := ParseMany(decode, s, n - 1);
      if before.Failed? then (before, rest)
      else
        var (one, unread) := Parse(decode, rest);
        if one.Got? then (Read(before.items + [one.reply]), unread) else (Failed(one), unread)
  }

  // ----- The command printer -----

  type Encoder = string -> seq<Byte>

  function BulkOf(bytes: seq<Byte>): seq<Byte> { [36] + Decimal(|bytes|) + CRLF + bytes + CRLF }

  function Joined(frame: seq<seq<Byte>>): seq<Byte> {
    if frame == [] then [] else Joined(frame[..|frame| - 1]) + frame[|frame| - 1]
  }

  function Bulks(encode: Encoder, parts: seq<string>): seq<seq<Byte>> {
    seq(|parts|, k requires 0 <= k < |parts| => BulkOf(encode(parts[k])))
  }

  function Command(encode: Encoder, parts: seq<string>): seq<Byte> {
    [42] + Decimal(|parts|) + CRLF + Joined(Bulks(encode, parts))
  }

  lemma JoinedMore(frame: seq<seq<Byte>>, piece: seq<Byte>)
    ensures Joined(frame + [piece]) == Joined(frame) + piece
  {
    assert (frame + [piece])[..|frame|] == frame;
  }

  lemma JoinedThree(frame: seq<seq<Byte>>, a: seq<Byte>, b: seq<Byte>, c: seq<Byte>)
    ensures Joined(frame + [a] + [b] + [c]) == Joined(frame) + (a + b + c)
  {
    JoinedMore(frame, a);
    JoinedMore(frame + [a], b);
    JoinedMore(frame + [a] + [b], c);
  }

  lemma BulksGrow(encode: Encoder, parts: seq<string>, k: nat)
    requires k < |parts|
    ensures Joined(Bulks(encode, parts[..k + 1])) == Joined(Bulks(encode, parts[..k])) + BulkOf(encode(parts[k]))
  {
    assert Bulks(encode, parts[..k + 1]) == Bulks(encode, parts[..k]) + [BulkOf(encode(parts[k]))];
    JoinedMore(Bulks(encode, parts[..k]), BulkOf(encode(parts[k])));
  }

  function HeadOf(parts: seq<string>): seq<Byte> { [42] + Decimal(|parts|) + CRLF }

  /** The three pieces of one part, appended to the frame. */
  method AppendPart(frame: seq<seq<Byte>>, part: seq<Byte>) returns (more: seq<seq<Byte>>)
    ensures Joined(more) == Joined(frame) + BulkOf(part)
  {
    more := frame + [[36] + Decimal(|part|) + CRLF];
    more := more + [part];
    more := more + [CRLF];
    JoinedThree(frame, [36] + Decimal(|part|) + CRLF, part, CRLF);
  }

  method EncodeCommand(encode: Encoder, parts: seq<string>) returns (bytes: seq<Byte>)
    ensures bytes == Command(encode, parts)
  {
    var frame := [HeadOf(parts)];
    for k := 0 to |parts|
      invariant Joined(frame) == HeadOf(parts) + Joined(Bulks(encode, parts[..k]))
    {
      BulksGrow(encode, parts, k);
      frame := AppendPart(frame, encode(parts[k]));
    }
    assert parts[..|parts|] == parts;
    bytes := Joined(frame);
  }

  // ----- Reading back what was printed -----

  lemma DecimalLine(n: nat, rest: seq<Byte>)
    ensures ReadLine(Decimal(n) + CRLF + rest) == (Line(Decimal(n)), rest) && ToInt(Decimal(n)) == Some(n)
  {
    ReadLineOf(Decimal(n), rest);
    ToIntOfDecimal(n);
  }

  /** After a length line, a bulk string reads its body and an array reads its items. */
  lemma ParseHead(decode: Decoder, s: seq<Byte>, n: nat, rest: seq<Byte>)
    requires s != [] && s[1..] == Decimal(n) + CRLF + rest
    ensures s[0] == 36 ==> Parse(decode, s) == ReadBulk(decode, n, rest)
    ensures s[0] == 42 && ParseMany(decode, rest, n).0.Read? ==>
              Parse(decode, s) == (Got(Array(ParseMany(decode, rest, n).0.items)), ParseMany(decode, rest, n).1)
  {
    DecimalLine(n, rest);
    if s[0] == 36 || s[0] == 42 {
      assert Parse(decode, s) == WithLine(decode, s[0], Line(Decimal(n)), rest);
      assert WithLine(decode, s[0], Line(Decimal(n)), rest) == WithNumber(decode, s[0], n, rest);
    }
  }

  lemma ReadBulkOf(decode: Decoder, bytes: seq<Byte>, rest: seq<Byte>)
    ensures ReadBulk(decode, |bytes|, bytes + CRLF + rest) == (AsText(decode, bytes), rest)
  {
    var s, n := bytes + CRLF + rest, |bytes|;
    assert s[..n] == bytes && s[n..n + 2] == CRLF && s[n + 2..] == rest;
  }

  lemma BulkReadsAs(decode: Decoder, bytes: seq<Byte>, text: string)
    requires decode(bytes) == Some(text)
    ensures ReadsAs(x => Parse(decode, x), BulkOf(bytes), Text(text))
  {
    forall rest ensures Parse(decode, BulkOf(bytes) + rest) == (Got(Text(text)), rest) {
      var s, tail := BulkOf(bytes) + rest, bytes + CRLF + rest;
      assert s[1..] == Decimal(|bytes|) + CRLF + tail;
      ParseHead(decode, s, |bytes|, tail);
      ReadBulkOf(decode, bytes, rest);
    }
  }

  lemma JoinedLast(pieces: seq<seq<Byte>>, rest: seq<Byte>)
    requires pieces != []
    ensures var n := |pieces| - 1; Joined(pieces) + rest == Joined(pieces[..n]) + (pieces[n] + rest)
  {
  }

  type Reader = seq<Byte> -> (Outcome, seq<Byte>)

  /** Reading `n` replies in a row with any reader. */
  function Many(one: Reader, s: seq<Byte>, n: nat): (Items, seq<Byte>) {
    if n == 0 then (Read([]), s)
    else
      var (before, rest) := Many(one, s, n - 1);
      if before.Failed? then (before, rest)
      else
        var (last, unread) := one(rest);
        if last.Got? then (Read(before.items + [last.reply]), unread) else (Failed(last), unread)
  }

  lemma {:induction false} ParseManyIsMany(decode: Decoder, s: seq<Byte>, n: nat)
    ensures ParseMany(decode, s, n) == Many(x => Parse(decode, x), s, n)
  {
    if n > 0 { ParseManyIsMany(decode, s, n - 1); }
  }

  /** A piece of the stream reads as one reply, whatever follows it. */
  ghost predicate ReadsAs(one: Reader, piece: seq<Byte>, reply: Reply) {
    forall rest {:trigger one(piece + rest)} :: one(piece + rest) == (Got(reply), rest)
  }

  lemma {:induction false} PiecesRead(one: Reader, pieces: seq<seq<Byte>>, replies: seq<Reply>, rest: seq<Byte>)
    requires |pieces| == |replies| && forall k :: 0 <= k < |pieces| ==> ReadsAs(one, pieces[k], replies[k])
    ensures Many(one, Joined(pieces) + rest, |pieces|) == (Read(replies), rest)
    decreases |pieces|
  {
    if pieces == [] {
      assert Joined(pieces) + rest == rest;
    } else {
      var n := |pieces| - 1;
      PiecesRead(one, pieces[..n], replies[..n], pieces[n] + rest);
      JoinedLast(pieces, rest);
      assert ReadsAs(one, pieces[n], replies[n]);
      assert replies == replies[..n] + [replies[n]];
    }
  }

  function Texts(parts: seq<string>): seq<Reply> { seq(|parts|, k requires 0 <= k < |parts| => Text(parts[k])) }

  predicate Decodes(decode: Decoder, encode: Encoder, parts: seq<string>) {
    forall k :: 0 <= k < |parts| ==> decode(encode(parts[k])) == Some(parts[k])
  }

  lemma BulksRead(decode: Decoder, encode: Encoder, parts: seq<string>, rest: seq<Byte>)
    requires Decodes(decode, encode, parts)
    ensures ParseMany(decode, Joined(Bulks(encode, parts)) + rest, |parts|) == (Read(Texts(parts)), rest)
  {
    var one: Reader := x => Parse(decode, x);
    forall k | 0 <= k < |parts| ensures ReadsAs(one, Bulks(encode, parts)[k], Texts(parts)[k]) {
      BulkReadsAs(decode, encode(parts[k]), parts[k]);
    }
    PiecesRead(one, Bulks(encode, parts), Texts(parts), rest);
    ParseManyIsMany(decode, Joined(Bulks(encode, parts)) + rest, |parts|);
  }

  /** A printed command followed by any bytes reads back as exactly its parts, and leaves exactly those bytes. */
  lemma CommandRoundTrip(decode: Decoder, encode: Encoder, parts: seq<string>, rest: seq<Byte>)
    requires Decodes(decode, encode, parts)
    ensures Parse(decode, Command(encode, parts) + rest) == (Got(Array(Texts(parts))), rest)
  {
    var s, tail := Command(encode, parts) + rest, Joined(Bulks(encode, parts)) + rest;
    assert s[1..] == Decimal(|parts|) + CRLF + tail;
    ParseHead(decode, s, |parts|, tail);
    BulksRead(decode, encode, parts, rest);
  }

  // ----- Negative lengths -----

  lemma ToIntOfNegative(n: nat)
    ensures ToInt([45] + Decimal(n)) == Some(0 - n as int)
  {
    var s := [45] + Decimal(n);
    assert IsDigit(s[|s| - 1]) && Strip(s) == s && s[1..] == Decimal(n);
    DigitsOfDecimal(n);
  }

  lemma NegativeNumber(decode: Decoder, prefix: Byte, n: nat, rest: seq<Byte>)
    requires n >= 1 && (prefix == 36 || prefix == 42)
    ensures WithNumber(decode, prefix, 0 - n as int, rest) ==
            (if n == 1 then Got(Nil) else if prefix == 36 then Malformed else Got(Array([])), rest)
  {
    assert ParseMany(decode, rest, 0) == (Read([]), rest);
  }

  /**
   * After a prefix and a line with a negative length: -1 is nil; below that a bulk string is malformed
   * and an array is empty.
   */
  lemma NegativeLengths(decode: Decoder, s: seq<Byte>, n: nat, rest: seq<Byte>)
    requires n >= 1 && s != [] && s[1..] == [45] + Decimal(n) + CRLF + rest
    ensures s[0] == 36 ==> Parse(decode, s) == (if n == 1 then Got(Nil) else Malformed, rest)
    ensures s[0] == 42 ==> Parse(decode, s) == (Got(if n == 1 then Nil else Array([])), rest)
  {
    var line := [45] + Decimal(n);
    ReadLineOf(line, rest);
    ToIntOfNegative(n);
    if s[0] == 36 || s[0] == 42 {
      assert Parse(decode, s) == WithLine(decode, s[0], Line(line), rest);
      assert WithLine(decode, s[0], Line(line), rest) == WithNumber(decode, s[0], 0 - n as int, rest);
      NegativeNumber(decode, s[0], n, rest);
    }
  }

  // ----- Success does not depend on what follows -----

  lemma ReadBulkExtends(decode: Decoder, length: int, s: seq<Byte>, t: seq<Byte>)
    requires ReadBulk(decode, length, s).0.Got?
    ensures ReadBulk(decode, length, s + t) == (ReadBulk(decode, length, s).0, ReadBulk(decode, length, s).1 + t)
  {
    assert (s + t)[..length] == s[..length];
    assert (s + t)[length..length + 2] == s[length..length + 2] && (s + t)[length + 2..] == s[length + 2..] + t;
  }

  /** A reply that was read in full is read the same way, whatever bytes come after it. */
  lemma {:induction false} ParseExtends(decode: Decoder, s: seq<Byte>, t: seq<Byte>)
    requires Parse(decode, s).0.Got?
    ensures Parse(decode, s + t) == (Parse(decode, s).0, Parse(decode, s).1 + t)
    decreases |s|, 0, 0
  {
    assert (s + t)[1..] == s[1..] + t && (s + t)[0] == s[0];
    var (line, rest) := ReadLine(s[1..]);
    assert Parse(decode, s) == WithLine(decode, s[0], line, rest);
    ReadLineExtends(s[1..], t);
    assert Parse(decode, s + t) == WithLine(decode, s[0], line, rest + t);
    if s[0] != 43 && s[0] != 45 {
      var n := ToInt(line.text).value;
      WithNumberExtends(decode, s[0], n, rest, t);
      assert WithLine(decode, s[0], line, rest + t) == WithNumber(decode, s[0], n, rest + t);
    }
  }

  lemma {:induction false} WithNumberExtends(decode: Decoder, prefix: Byte, n: int, s: seq<Byte>, t: seq<Byte>)
    requires WithNumber(decode, prefix, n, s).0.Got?
    ensures WithNumber(decode, prefix, n, s + t) ==
        (WithNumber(decode, prefix, n, s).0, WithNumber(decode, prefix, n, s).1 + t)
    decreases |s|, 2, 0
  {
    if prefix != 58 && n != -1 {
      if prefix == 36 {
        ReadBulkExtends(decode, n, s, t);
      } else {
        ParseManyExtends(decode, s, if n < 0 then 0 else n, t);
      }
    }
  }

  lemma {:induction false} ParseManyExtends(decode: Decoder, s: seq<Byte>, n: nat, t: seq<Byte>)
    requires ParseMany(decode, s, n).0.Read?
    ensures ParseMany(decode, s + t, n) == (ParseMany(decode, s, n).0, ParseMany(decode, s, n).1 + t)
    decreases |s|, 1, n
  {
    if n > 0 {
      ParseManyExtends(decode, s, n - 1, t);
      ParseExtends(decode, ParseMany(decode, s, n - 1).1, t);
    }
  }

  /** A command cut short anywhere is never taken for a reply. */
  lemma TruncatedIsRefused(decode: Decoder, encode: Encoder, parts: seq<string>, k: nat)
    requires Decodes(decode, encode, parts) && k < |Command(encode, parts)|
    ensures !Parse(decode, Command(encode, parts)[..k]).0.Got?
  {
    var whole := Command(encode, parts);
    var cut, tail := whole[..k], whole[k..];
    assert whole == cut + tail && whole + [] == whole;
    CommandRoundTrip(decode, encode, parts, []);
    if Parse(decode, cut).0.Got? { ParseExtends(decode, cut, tail); }
  }

  // ----- Pipelines -----

  function Pipeline(encode: Encoder, commands: seq<seq<string>>): seq<seq<Byte>> {
    seq(|commands|, k requires 0 <= k < |commands| => Command(encode, commands[k]))
  }

  function Answers(commands: seq<seq<string>>): seq<Reply> {
    seq(|commands|, k requires 0 <= k < |commands| => Array(Texts(commands[k])))
  }

  /** Reading commands printed one after another yields each of them in order, and leaves what follows them. */
  lemma PipelineRoundTrip(decode: Decoder, encode: Encoder, commands: seq<seq<string>>, rest: seq<Byte>)
    requires forall k :: 0 <= k < |commands| ==> Decodes(decode, encode, commands[k])
    ensures ParseMany(decode, Joined(Pipeline(encode, commands)) + rest, |commands|) == (Read(Answers(commands)), rest)
  {
    var one: Reader := x => Parse(decode, x);
    forall k | 0 <= k < |commands| ensures ReadsAs(one, Pipeline(encode, commands)[k], Answers(commands)[k]) {
      CommandReadsAs(decode, encode, commands[k]);
    }
    PiecesRead(one, Pipeline(encode, commands), Answers(commands), rest);
    ParseManyIsMany(decode, Joined(Pipeline(encode, commands)) + rest, |commands|);
  }

  lemma CommandReadsAs(decode: Decoder, encode: Encoder, parts: seq<string>)
    requires Decodes(decode, encode, parts)
    ensures ReadsAs(x => Parse(decode, x), Command(encode, parts), Array(Texts(parts)))
  {
    forall rest ensures Parse(decode, Command(encode, parts) + rest) == (Got(Array(Texts(parts))), rest) {
      CommandRoundTrip(decode, encode, parts, rest);
    }
  }

  // ----- The stream object -----

  class Stream {
    var unread: seq<Byte>

    constructor (bytes: seq<Byte>)
      ensures unread == bytes
    {
      unread := bytes;
    }

    /** Up to `n` bytes; fewer only at the end of the stream. */
    method Take(n: nat) returns (data: seq<Byte>)
      modifies this
      ensures data + unread == old(unread)
      ensures |data| == if n <= |old(unread)| then n else |old(unread)|
    {
      var k := if n <= |unread| then n else |unread|;
      data := unread[..k];
      unread := unread[k..];
    }

    method NextLine() returns (line: Line)
      modifies this
      ensures (line, unread) == ReadLine(old(unread))
    {
      if unread == [] { return NoData; }
      var end := 0;
      while end < |unread| && unread[end] != LF
        invariant end <= |unread| && LfAt(unread) == end + LfAt(unread[end..])
      {
        assert unread[end..][1..] == unread[end + 1..];
        end := end + 1;
      }
      if end < |unread| { end := end + 1; }
      var text := Take(end);
      assert text == old(unread)[..end] && unread == old(unread)[end..];
      line := Ended(text);
    }

    method BulkString(decode: Decoder, length: int) returns (result: Outcome)
      modifies this
      ensures (result, unread) == ReadBulk(decode, length, old(unread))
    {
      if length < 0 { return Malformed; }
      var data := Take(length);
      var terminator := Take(2);
      assert old(unread) == data + terminator + unread;
      if |data| != length || terminator != CRLF { return Malformed; }
      result := AsText(decode, data);
    }

    method ReadReply(decode: Decoder) returns (result: Outcome)
      modifies this
      ensures (result, unread) == Parse(decode, old(unread))
      decreases |unread|, 0
    {
      var prefix := Take(1);
      if prefix == [] { return Closed; }
      assert unread == old(unread)[1..] && prefix[0] == old(unread)[0];
      if prefix[0] !in [43, 45, 58, 36, 42] { return Malformed; }
      var line := NextLine();
      assert Parse(decode, old(unread)) == WithLine(decode, prefix[0], line, unread);
      if line.NoData? { return Closed; }
      if line.BadLine? { return Malformed; }
      if prefix[0] == 43 { return AsText(decode, line.text); }
      if prefix[0] == 45 {
        var message := decode(line.text);
        return if message.Some? then ServerError(message.value) else BadText;
      }
      var n := ToInt(line.text);
      if n.None? { return Malformed; }
      assert Parse(decode, old(unread)) == WithNumber(decode, prefix[0], n.value, unread);
      if prefix[0] == 58 { return Got(Int(n.value)); }
      if n.value == -1 { return Got(Nil); }
      if prefix[0] == 36 {
        result := BulkString(decode, n.value);
      } else {
        var items := ReadItems(decode, if n.value < 0 then 0 else n.value);
        result := if items.Read? then Got(Array(items.items)) else items.failure;
      }
    }

    method ReadItems(decode: Decoder, n: nat) returns (items: Items)
      modifies this
      ensures (items, unread) == ParseMany(decode, old(unread), n)
      decreases |unread|, 1
    {
      items := Read([]);
      for k := 0 to n
        invariant items.Read? && (items, unread) == ParseMany(decode, old(unread), k)
      {
        var one := ReadReply(decode);
        if !one.Got? {
          items := Failed(one);
          FailureStays(decode, old(unread), k + 1, n);
          return;
        }
        items := Read(items.items + [one.reply]);
      }
    }
  }

  lemma {:induction false} FailureStays(decode: Decoder, s: seq<Byte>, k: nat, n: nat)
    requires k <= n && ParseMany(decode, s, k).0.Failed?
    ensures ParseMany(decode, s, n) == ParseMany(decode, s, k)
    decreases n
  {
    if k < n { FailureStays(decode, s, k, n - 1); }
  }
}
