// The text of the write-ahead log: one encoded entry per line, appended to and read back.

module WalFile {
  import opened Wrappers

  // How an entry becomes one line of text, and back.
  datatype Codec<!E> = Codec(encode: E -> string, decode: string -> Result<E, string>)

  // The characters Unicode calls white space; trimming removes exactly these.
  predicate IsSpace(c: char) {
    || '\U{0009}' <= c <= '\U{000D}' || c == '\U{0020}' || c == '\U{0085}' || c == '\U{00A0}' || c == '\U{1680}'
    || '\U{2000}' <= c <= '\U{200A}' || c == '\U{2028}' || c == '\U{2029}' || c == '\U{202F}' || c == '\U{205F}'
    || c == '\U{3000}'
  }

  predicate Blank(line: string) {
    forall c | c in line :: IsSpace(c)
  }

  // What is assumed of the entry encoding: it can be decoded, and it is one non-blank line.
  ghost predicate Lawful<E>(codec: Codec<E>, e: E) {
    var line := codec.encode(e);
    && codec.decode(line) == Success(e)
    && '\n' !in line && '\r' !in line && !Blank(line)
  }

  function Line<E>(codec: Codec<E>, e: E): string {
    codec.encode(e) + "\n"
  }

  function Render<E>(codec: Codec<E>, entries: seq<E>): string {
    if entries == [] then "" else Line(codec, entries[0]) + Render(codec, entries[1..])
  }

  // ----- Reading lines -----

  function LineEnd(text: string): (k: nat)
    ensures k <= |text|
    ensures '\n' !in text[..k] && (k < |text| ==> text[k] == '\n')
  {
    if text == "" || text[0] == '\n' then 0
    else
      var k := LineEnd(text[1..]);
      assert text[..k + 1] == [text[0]] + text[1..][..k];
      k + 1
  }

  // The first line, without its line break: "\n" or "\r\n".
  function FirstLine(text: string): string {
    var k := LineEnd(text);
    if 0 < k < |text| && text[k - 1] == '\r' then text[..k - 1] else text[..k]
  }

  function RestOf(text: string): (rest: string)
    ensures text != "" ==> |rest| < |text|
  {
    var k := LineEnd(text);
    if k < |text| then text[k + 1..] else ""
  }

  function Lines(text: string): seq<string>
    decreases |text|
  {
    if text == "" then [] else [FirstLine(text)] + Lines(RestOf(text))
  }

  // Decodes lines, skipping blank ones, after the entries already read.
  function DecodeAll<E>(codec: Codec<E>, lines: seq<string>, entries: seq<E>): Result<seq<E>, string>
    decreases |lines|
  {
    if lines == [] then Success(entries)
    else if Blank(lines[0]) then DecodeAll(codec, lines[1..], entries)
    else
      match codec.decode(lines[0])
      case Failure(error) => Failure(error)
      case Success(entry) => DecodeAll(codec, lines[1..], entries + [entry])
  }

  // What reading back at most `readable` lines of a text gives.
  function ReadBack<E>(codec: Codec<E>, text: string, readable: nat): Result<seq<E>, string> {
    DecodeAll(codec, UpTo(Lines(text), readable), [])
  }

  // The first n elements, or all of them when there are fewer.
  function UpTo<E>(s: seq<E>, n: nat): seq<E> {
    if n <= |s| then s[..n] else s
  }

  lemma UpToFirst<E>(s: seq<E>, n: nat)
    requires s != [] && n > 0
    ensures UpTo(s, n) != [] && UpTo(s, n)[0] == s[0] && UpTo(s, n)[1..] == UpTo(s[1..], n - 1)
  {
  }

  // An open log file. The text of the file is all there is to it.
  class WalManager<E> {
    const codec: Codec<E>
    var file: string

    constructor (codec: Codec<E>, file: string)
      ensures this.codec == codec && this.file == file
    {
      this.codec, this.file := codec, file;
    }

    // `writes` says whether the write succeeds; a failed write leaves no trace.
    method Append(entry: E, writes: bool) returns (ok: bool)
      modifies this
      ensures ok == writes
      ensures file == old(file) + Render(codec, if writes then [entry] else [])
      ensures file == old(file) + if writes then codec.encode(entry) + "\n" else ""
    {
      var line := codec.encode(entry);
      line := line + ['\n'];
      assert Render(codec, [entry]) == line;
      if !writes {
        return false;
      }
      file := file + line;
      return true;
    }

    // `readable` bounds the lines that can be read before an I/O error ends the loop.
    static method Replay(codec: Codec<E>, file: string, readable: nat) returns (r: Result<seq<E>, string>)
      ensures r == ReadBack(codec, file, readable)
    {
      var rest, read, entries := file, 0, [];
      while rest != "" && read < readable
        invariant read <= readable
        invariant ReadBack(codec, file, readable) == DecodeAll(codec, UpTo(Lines(rest), readable - read), entries)
        decreases |rest|
      {
        UpToFirst(Lines(rest), readable - read);
        var line := FirstLine(rest);
        rest, read := RestOf(rest), read + 1;
        if Blank(line) {
          continue;
        }
        match codec.decode(line) {
          case Failure(error) => return Failure(error);
          case Success(entry) => entries := entries + [entry];
        }
      }
      return Success(entries);
    }
  }

  // ----- What the log file promises -----

  lemma LineEndAt(line: string, rest: string)
    requires '\n' !in line
    ensures LineEnd(line + "\n" + rest) == |line|
  {
    var text := line + "\n" + rest;
    assert text[..|line|] == line && text[|line|] == '\n';
  }

  lemma ReadLine<E>(codec: Codec<E>, e: E, rest: string)
    requires Lawful(codec, e)
    ensures var text := Line(codec, e) + rest;
            text != "" && FirstLine(text) == codec.encode(e) && RestOf(text) == rest
  {
    var line := codec.encode(e);
    LineEndAt(line, rest);
    var text := Line(codec, e) + rest;
    assert text == line + "\n" + rest;
    assert text[..|line|] == line;
    assert text[|line| + 1..] == rest;
    if |line| > 0 {
      assert text[|line| - 1] == line[|line| - 1];
      assert line[|line| - 1] in line;
    }
  }

  ghost predicate AllLawful<E>(codec: Codec<E>, entries: seq<E>) {
    forall i | 0 <= i < |entries| :: Lawful(codec, entries[i])
  }

  function EncodeAll<E>(codec: Codec<E>, entries: seq<E>): seq<string> {
    if entries == [] then [] else [codec.encode(entries[0])] + EncodeAll(codec, entries[1..])
  }

  // The lines of the file are the encoded entries, one each.
  lemma {:induction false} LinesOfRendered<E>(codec: Codec<E>, entries: seq<E>)
    requires AllLawful(codec, entries)
    ensures Lines(Render(codec, entries)) == EncodeAll(codec, entries)
    decreases |entries|
  {
    if entries != [] {
      ReadLine(codec, entries[0], Render(codec, entries[1..]));
      LinesOfRendered(codec, entries[1..]);
    }
  }

  lemma {:induction false} DecodeEncoded<E>(codec: Codec<E>, entries: seq<E>, n: nat, earlier: seq<E>)
    requires AllLawful(codec, entries)
    ensures DecodeAll(codec, UpTo(EncodeAll(codec, entries), n), earlier) == Success(earlier + UpTo(entries, n))
    decreases |entries|
  {
    if entries == [] || n == 0 {
      assert earlier + [] == earlier;
    } else {
      var first := entries[0];
      UpToFirst(EncodeAll(codec, entries), n);
      UpToFirst(entries, n);
      DecodeEncoded(codec, entries[1..], n - 1, earlier + [first]);
      assert Lawful(codec, first);
      assert earlier + [first] + UpTo(entries[1..], n - 1) == earlier + UpTo(entries, n);
    }
  }

  // Reading back what was appended gives the entries appended, or as many of them as
  // could be read.
  lemma ReadBackRendered<E>(codec: Codec<E>, entries: seq<E>, readable: nat)
    requires AllLawful(codec, entries)
    ensures ReadBack(codec, Render(codec, entries), readable) == Success(UpTo(entries, readable))
  {
    LinesOfRendered(codec, entries);
    DecodeEncoded(codec, entries, readable, []);
    assert [] + UpTo(entries, readable) == UpTo(entries, readable);
  }

  lemma {:induction false} RenderConcat<E>(codec: Codec<E>, a: seq<E>, b: seq<E>)
    ensures Render(codec, a + b) == Render(codec, a) + Render(codec, b)
  {
    if a == [] {
      assert a + b == b;
    } else {
      assert (a + b)[1..] == a[1..] + b;
      RenderConcat(codec, a[1..], b);
    }
  }

  lemma RenderOnto<E>(codec: Codec<E>, file: string, a: seq<E>, b: seq<E>)
    ensures file + Render(codec, a) + Render(codec, b) == file + Render(codec, a + b)
  {
    RenderConcat(codec, a, b);
  }

  lemma {:induction false} DecodeSucceeds<E>(codec: Codec<E>, lines: seq<string>, entries: seq<E>)
    ensures DecodeAll(codec, lines, entries).Success? <==>
            forall line | line in lines :: Blank(line) || codec.decode(line).Success?
    decreases |lines|
  {
    if lines != [] {
      assert forall line :: line in lines <==> line == lines[0] || line in lines[1..];
      DecodeSucceeds(codec, lines[1..], entries);
      if codec.decode(lines[0]).Success? {
        DecodeSucceeds(codec, lines[1..], entries + [codec.decode(lines[0]).value]);
      }
    }
  }

  // One undecodable line makes the whole log unreadable, wherever it is.
  lemma ReadableIffAllLinesDecode<E>(codec: Codec<E>, text: string, readable: nat)
    ensures ReadBack(codec, text, readable).Success? <==>
            forall line | line in UpTo(Lines(text), readable) :: Blank(line) || codec.decode(line).Success?
  {
    DecodeSucceeds(codec, UpTo(Lines(text), readable), []);
  }

  // ----- Any text -----

  // These 25 characters, and no others, are white space.
  lemma SpacesAre(c: char)
    ensures IsSpace(c) <==> c in {
              '\U{0009}', '\U{000A}', '\U{000B}', '\U{000C}', '\U{000D}', '\U{0020}', '\U{0085}', '\U{00A0}',
              '\U{1680}', '\U{2000}', '\U{2001}', '\U{2002}', '\U{2003}', '\U{2004}', '\U{2005}', '\U{2006}',
              '\U{2007}', '\U{2008}', '\U{2009}', '\U{200A}', '\U{2028}', '\U{2029}', '\U{202F}', '\U{205F}',
              '\U{3000}' }
  {
  }

  // A line and the line break that ends it.
  datatype Terminated = Terminated(line: string, end: string)

  ghost predicate Ended(t: Terminated) {
    && '\n' !in t.line && (t.end == "\n" || t.end == "\r\n")
    && (t.end == "\n" && t.line != "" ==> t.line[|t.line| - 1] != '\r')
  }

  // The text of some ended lines and what is left after them, and its lines.
  function TextOf(ts: seq<Terminated>, tail: string): string {
    if ts == [] then tail else ts[0].line + ts[0].end + TextOf(ts[1..], tail)
  }

  function LinesIn(ts: seq<Terminated>, tail: string): (lines: seq<string>)
    ensures |lines| == |ts| + if tail == "" then 0 else 1
    ensures forall i | 0 <= i < |ts| :: lines[i] == ts[i].line
    ensures tail != "" ==> lines[|ts|] == tail
  {
    if ts == [] then (if tail == "" then [] else [tail])
    else [ts[0].line] + LinesIn(ts[1..], tail)
  }

  lemma FirstEnded(t: Terminated, rest: string)
    requires Ended(t)
    ensures FirstLine(t.line + t.end + rest) == t.line && RestOf(t.line + t.end + rest) == rest
  {
    var text := t.line + t.end + rest;
    if t.end == "\n" {
      LineEndAt(t.line, rest);
      assert text[..|t.line|] == t.line && text[|t.line| + 1..] == rest;
      assert t.line != "" ==> text[|t.line| - 1] == t.line[|t.line| - 1];
    } else {
      var line := t.line + "\r";
      LineEndAt(line, rest);
      assert text == line + "\n" + rest;
      assert text[..|t.line|] == t.line && text[|t.line|] == '\r' && text[|line| + 1..] == rest;
    }
  }

  lemma LineEndOfTail(tail: string)
    requires '\n' !in tail
    ensures LineEnd(tail) == |tail|
  {
    var k := LineEnd(tail);
    if k < |tail| {
      assert false;
    }
  }

  lemma LinesOfTail(tail: string)
    requires '\n' !in tail
    ensures Lines(tail) == if tail == "" then [] else [tail]
  {
    LineEndOfTail(tail);
    assert tail[..|tail|] == tail;
  }

  lemma LinesOneMore(t: Terminated, rest: string, text: string)
    requires Ended(t) && text == t.line + t.end + rest
    ensures Lines(text) == [t.line] + Lines(rest)
  {
    FirstEnded(t, rest);
  }

  // The lines of any text: those ended by a line break of either kind, and what is left.
  lemma {:induction false} LinesOfText(ts: seq<Terminated>, tail: string)
    requires (forall i | 0 <= i < |ts| :: Ended(ts[i])) && '\n' !in tail
    ensures Lines(TextOf(ts, tail)) == LinesIn(ts, tail)
    decreases |ts|
  {
    if ts == [] {
      LinesOfTail(tail);
    } else {
      LinesOfText(ts[1..], tail);
      LinesOneMore(ts[0], TextOf(ts[1..], tail), TextOf(ts, tail));
    }
  }

  // What a line holds: an entry as it was written, or nothing.
  ghost predicate HoldsLine<E>(codec: Codec<E>, line: string, entry: Option<E>) {
    match entry
    case None => Blank(line)
    case Some(e) => Lawful(codec, e) && line == codec.encode(e)
  }

  function Present<E>(entries: seq<Option<E>>): seq<E> {
    if entries == [] then []
    else (if entries[0].Some? then [entries[0].value] else []) + Present(entries[1..])
  }

  lemma {:induction false} DecodeAmongBlanks<E>(
    codec: Codec<E>, lines: seq<string>, entries: seq<Option<E>>, earlier: seq<E>)
    requires |lines| == |entries| && forall i | 0 <= i < |lines| :: HoldsLine(codec, lines[i], entries[i])
    ensures DecodeAll(codec, lines, earlier) == Success(earlier + Present(entries))
    decreases |lines|
  {
    if lines == [] {
      assert earlier + [] == earlier;
    } else {
      assert HoldsLine(codec, lines[0], entries[0]);
      var next := earlier + if entries[0].Some? then [entries[0].value] else [];
      DecodeAmongBlanks(codec, lines[1..], entries[1..], next);
      assert next + Present(entries[1..]) == earlier + Present(entries);
      assert earlier + [] == earlier;
    }
  }

  // Blank lines anywhere among the entries, and either kind of line break, change nothing:
  // all entries on the lines that can be read are read, in order.
  lemma BlankLinesSkipped<E>(codec: Codec<E>, ts: seq<Terminated>, entries: seq<Option<E>>, readable: nat)
    requires |ts| == |entries|
    requires forall i | 0 <= i < |ts| :: Ended(ts[i]) && HoldsLine(codec, ts[i].line, entries[i])
    ensures ReadBack(codec, TextOf(ts, ""), readable) == Success(Present(UpTo(entries, readable)))
  {
    LinesOfText(ts, "");
    DecodeAmongBlanks(codec, UpTo(LinesIn(ts, ""), readable), UpTo(entries, readable), []);
    assert [] + Present(UpTo(entries, readable)) == Present(UpTo(entries, readable));
  }

  // The error reported is that of the first line that is neither blank nor an entry.
  lemma {:induction false} FirstErrorReported<E>(codec: Codec<E>, lines: seq<string>, k: nat, entries: seq<E>)
    requires k < |lines| && !Blank(lines[k]) && codec.decode(lines[k]).Failure?
    requires forall i | 0 <= i < k :: Blank(lines[i]) || codec.decode(lines[i]).Success?
    ensures DecodeAll(codec, lines, entries) == Failure(codec.decode(lines[k]).error)
    decreases |lines|
  {
    if k > 0 {
      var next := if Blank(lines[0]) then entries else entries + [codec.decode(lines[0]).value];
      FirstErrorReported(codec, lines[1..], k - 1, next);
    }
  }
}
