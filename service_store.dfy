/**
 * The services.conf store: one line per service, `name|command|port`.
 * `addService` and `saveServices` write lines through `escapePipe`;
 * `getServices` reads them back with `explode('|', ...)` and keeps only
 * lines of exactly three fields. The reader never unescapes, so the codec
 * is lossy: the lemmas below say exactly which records survive.
 */
module ServiceStore {
  import opened Wrappers
  import opened PhpStrings

  /** A service definition as the store holds it; the port stays a string. */
  datatype Service = Service(name: string, command: string, port: string)

  /** A field that is written and read back unchanged: no `|`, no line break. */
  predicate CleanField(f: string)
  {
    '|' !in f && '\n' !in f
  }

  predicate Clean(s: Service)
  {
    CleanField(s.name) && CleanField(s.command) && CleanField(s.port)
  }

  /** `str_replace('|', '\|', s)`: a backslash goes in front of every pipe. */
  function EscapePipe(s: string): (r: string)
    ensures |r| == |s| + Count(s, '|')
    ensures Count(r, '|') == Count(s, '|')
    ensures Count(r, '\n') == Count(s, '\n')
    ensures '|' !in s ==> r == s
    ensures |s| == 1 ==> r == if s[0] == '|' then "\\|" else s
  {
    if s == [] then ""
    else
      var head := if s[0] == '|' then "\\|" else [s[0]];
      var rest := EscapePipe(s[1..]);
      CountAppend(head, rest, '|');
      CountAppend(head, rest, '\n');
      assert s == [s[0]] + s[1..];
      assert |s| == 1 ==> rest == "";
      head + rest
  }

  /** Escaping works character by character: escaping a concatenation concatenates the escapings. */
  lemma {:induction false} EscapePipeAppend(a: string, b: string)
    ensures EscapePipe(a + b) == EscapePipe(a) + EscapePipe(b)
  {
    if a == [] {
      assert a + b == b;
    } else {
      assert (a + b)[0] == a[0] && (a + b)[1..] == a[1..] + b;
      EscapePipeAppend(a[1..], b);
    }
  }

  /**
   * The decoding the reader would need: a backslash directly in front of a
   * pipe is dropped. `getServices` never applies it.
   */
  function Unescape(s: string): string
  {
    if s == [] then ""
    else if |s| >= 2 && s[0] == '\\' && s[1] == '|' then "|" + Unescape(s[2..])
    else [s[0]] + Unescape(s[1..])
  }

  /** An escaped string never starts with a bare pipe. */
  lemma EscapedHead(s: string)
    requires EscapePipe(s) != []
    ensures EscapePipe(s)[0] != '|'
  {
  }

  /** `escapePipe` loses nothing: unescaping gives back every string, backslashes included. */
  lemma {:induction false} UnescapeEscape(s: string)
    ensures Unescape(EscapePipe(s)) == s
  {
    if s != [] {
      var rest := EscapePipe(s[1..]);
      UnescapeEscape(s[1..]);
      if s[0] == '|' {
        assert EscapePipe(s) == "\\|" + rest;
        assert (EscapePipe(s))[2..] == rest;
      } else {
        assert EscapePipe(s) == [s[0]] + rest;
        if rest != [] {
          EscapedHead(s[1..]);
        }
        assert (EscapePipe(s))[1..] == rest;
      }
      assert s == [s[0]] + s[1..];
    }
  }

  /** The line `addService` and `saveServices` write for a service, without its line break. */
  function EncodeLine(s: Service): string
  {
    Join([EscapePipe(s.name), EscapePipe(s.command), s.port], '|')
  }

  /** The record `getServices` reads from one line: only a line of exactly three fields counts. */
  function ParseLine(line: string): Option<Service>
  {
    var parts := Split(line, '|');
    if |parts| == 3 then Some(Service(parts[0], parts[1], parts[2])) else None
  }

  /** What `getServices` returns (without the status probe): the records of the three-field lines, in file order. */
  function Parsed(lines: seq<string>): seq<Service>
  {
    if lines == [] then []
    else
      var last := lines[|lines| - 1];
      Parsed(lines[..|lines| - 1]) + (match ParseLine(last) case Some(s) => [s] case None => [])
  }

  /** The lines `getServices` keeps: one for each record it returns. */
  function WellFormed(lines: seq<string>): (kept: seq<string>)
    ensures |kept| == |Parsed(lines)|
  {
    if lines == [] then []
    else
      var last := lines[|lines| - 1];
      WellFormed(lines[..|lines| - 1]) + (if ParseLine(last).Some? then [last] else [])
  }

  /** The lines one record occupies in the file: its line, cut at any line break inside a field. */
  function RecordLines(s: Service): seq<string>
  {
    Split(EncodeLine(s), '\n')
  }

  /** The concatenation of `f(x)` over `xs`, in order. */
  function Flatten<T>(xs: seq<T>, f: T -> seq<string>): seq<string>
  {
    if xs == [] then [] else Flatten(xs[..|xs| - 1], f) + f(xs[|xs| - 1])
  }

  lemma {:induction false} FlattenAppend<T>(a: seq<T>, b: seq<T>, f: T -> seq<string>)
    ensures Flatten(a + b, f) == Flatten(a, f) + Flatten(b, f)
  {
    if b == [] {
      assert a + b == a;
    } else {
      var init, last := b[..|b| - 1], b[|b| - 1];
      FlattenAppend(a, init, f);
      assert a + b == (a + init) + [last];
      assert (a + b)[..|a + b| - 1] == a + init;
    }
  }

  /**
   * The lines of the file `saveServices(defs)` writes: each record's line
   * followed by a line break, read back line by line.
   */
  function Encoded(defs: seq<Service>): seq<string>
  {
    Flatten(defs, RecordLines)
  }

  /** The `foreach` of `getServices`: collects the records of the three-field lines. */
  method ParseStore(lines: seq<string>) returns (services: seq<Service>)
    ensures services == Parsed(lines)
  {
    services := [];
    for i := 0 to |lines|
      invariant services == Parsed(lines[..i])
    {
      var parts := Split(lines[i], '|');
      if |parts| == 3 {
        services := services + [Service(parts[0], parts[1], parts[2])];
      }
      assert lines[..i + 1][..i] == lines[..i];
    }
    assert lines[..|lines|] == lines;
  }

  lemma EncodeLineUnfold(s: Service)
    ensures EncodeLine(s) == EscapePipe(s.name) + "|" + (EscapePipe(s.command) + "|" + s.port)
  {
    var n, c := EscapePipe(s.name), EscapePipe(s.command);
    assert [n, c, s.port][1..] == [c, s.port];
    assert [c, s.port][1..] == [s.port];
    assert Join([c, s.port], '|') == c + "|" + s.port;
  }

  /** A record without `|` or line breaks is written as one line that reads back as the same record. */
  lemma LineRoundTrip(s: Service)
    requires Clean(s)
    ensures Split(EncodeLine(s), '\n') == [EncodeLine(s)]
    ensures ParseLine(EncodeLine(s)) == Some(s)
  {
    var parts := [s.name, s.command, s.port];
    SplitJoin(parts, '|');
    EncodeLineUnfold(s);
    SplitWhole(EncodeLine(s), '\n');
  }

  /**
   * A `|` in the name or the command is escaped as `\|`, which still
   * contains the delimiter: the line has four or more fields and
   * `getServices` skips it.
   */
  lemma PipeRecordUnreadable(s: Service)
    requires '|' in s.name || '|' in s.command
    ensures |Split(EncodeLine(s), '|')| >= 4
    ensures ParseLine(EncodeLine(s)) == None
  {
    var n, c := EscapePipe(s.name), EscapePipe(s.command);
    EncodeLineUnfold(s);
    CountAppend(c + "|", s.port, '|');
    CountAppend(c, "|", '|');
    CountAppend(n + "|", c + "|" + s.port, '|');
    CountAppend(n, "|", '|');
    CountPositive(s.name, '|');
    CountPositive(s.command, '|');
  }

  /** Every record `getServices` returns is written back as exactly the line it came from. */
  lemma ReencodeParsedLine(line: string, s: Service)
    requires ParseLine(line) == Some(s)
    ensures EncodeLine(s) == line
  {
    var parts := Split(line, '|');
    SplitParts(line, '|');
    assert '|' !in parts[0] && '|' !in parts[1];
    assert [s.name, s.command, s.port] == parts;
    JoinSplit(line, '|');
  }

  /** The records `getServices` returns from a file of lines hold neither `|` nor a line break. */
  lemma {:induction false} ParsedClean(lines: seq<string>)
    requires LinesOnly(lines)
    ensures forall i :: 0 <= i < |Parsed(lines)| ==> Clean(Parsed(lines)[i])
  {
    if lines != [] {
      var init, last := lines[..|lines| - 1], lines[|lines| - 1];
      ParsedClean(init);
      var parts := Split(last, '|');
      SplitParts(last, '|');
      SplitAvoids(last, '|', '\n');
      assert forall k :: 0 <= k < |parts| ==> CleanField(parts[k]);
    }
  }

  lemma EncodedSnoc(defs: seq<Service>, s: Service)
    ensures Encoded(defs + [s]) == Encoded(defs) + Split(EncodeLine(s), '\n')
  {
    assert (defs + [s])[..|defs|] == defs;
    assert RecordLines(s) == Split(EncodeLine(s), '\n');
  }

  lemma ParsedSnoc(lines: seq<string>, line: string)
    ensures Parsed(lines + [line]) == Parsed(lines) + Parsed([line])
  {
    assert (lines + [line])[..|lines|] == lines;
    assert [line][..0] == [];
  }

  lemma {:induction false} ParsedAppend(a: seq<string>, b: seq<string>)
    ensures Parsed(a + b) == Parsed(a) + Parsed(b)
  {
    if b != [] {
      var init, last := b[..|b| - 1], b[|b| - 1];
      ParsedAppend(a, init);
      assert a + b == (a + init) + [last];
      assert b == init + [last];
      ParsedSnoc(a + init, last);
      ParsedSnoc(init, last);
    } else {
      assert a + b == a;
    }
  }

  lemma EncodedAppend(a: seq<Service>, b: seq<Service>)
    ensures Encoded(a + b) == Encoded(a) + Encoded(b)
  {
    FlattenAppend(a, b, RecordLines);
  }

  /** The stored lines never contain a line break: they are lines of the file. */
  lemma {:induction false} EncodedLinesOnly(defs: seq<Service>)
    ensures LinesOnly(Encoded(defs))
  {
    if defs != [] {
      var init, last := defs[..|defs| - 1], defs[|defs| - 1];
      EncodedLinesOnly(init);
      var tail := Split(EncodeLine(last), '\n');
      SplitParts(EncodeLine(last), '\n');
      EncodedSnoc(init, last);
      assert defs == init + [last];
    }
  }

  /**
   * Rewriting the store from what `getServices` returned keeps exactly the
   * three-field lines, verbatim and in order: every malformed line is erased.
   */
  lemma {:induction false} RewriteKeepsWellFormed(lines: seq<string>)
    requires LinesOnly(lines)
    ensures Encoded(Parsed(lines)) == WellFormed(lines)
  {
    if lines != [] {
      var init, last := lines[..|lines| - 1], lines[|lines| - 1];
      RewriteKeepsWellFormed(init);
      assert Parsed(lines) == Parsed(init) + (match ParseLine(last) case Some(s) => [s] case None => []);
      match ParseLine(last)
      case None =>
        assert Parsed(lines) == Parsed(init);
        assert WellFormed(lines) == WellFormed(init);
      case Some(s) =>
        EncodedSnoc(Parsed(init), s);
        ReencodeParsedLine(last, s);
        SplitWhole(last, '\n');
    }
  }

  /** Records free of `|` and line breaks survive a write and a read unchanged and in order. */
  lemma {:induction false} StoreRoundTrip(defs: seq<Service>)
    requires forall i :: 0 <= i < |defs| ==> Clean(defs[i])
    ensures Parsed(Encoded(defs)) == defs
  {
    if defs != [] {
      var init, last := defs[..|defs| - 1], defs[|defs| - 1];
      StoreRoundTrip(init);
      LineRoundTrip(last);
      EncodedSnoc(init, last);
      ParsedSnoc(Encoded(init), EncodeLine(last));
      assert Parsed([EncodeLine(last)]) == [last] by {
        assert [EncodeLine(last)][..0] == [];
      }
      assert defs == init + [last];
    }
  }

  /** A record whose fields hold no line break is written as a single line. */
  lemma EncodeLineOneLine(s: Service)
    requires '\n' !in s.name && '\n' !in s.command && '\n' !in s.port
    ensures '\n' !in EncodeLine(s)
    ensures Split(EncodeLine(s), '\n') == [EncodeLine(s)]
  {
    var n, c := EscapePipe(s.name), EscapePipe(s.command);
    EncodeLineUnfold(s);
    CountPositive(s.name, '\n');
    CountPositive(s.command, '\n');
    CountPositive(n, '\n');
    CountPositive(c, '\n');
    assert '\n' !in n + "|" + (c + "|" + s.port);
    SplitWhole(EncodeLine(s), '\n');
  }

  /** Clean records are written one line each, in order. */
  lemma {:induction false} EncodedClean(defs: seq<Service>)
    requires forall i :: 0 <= i < |defs| ==> Clean(defs[i])
    ensures |Encoded(defs)| == |defs|
    ensures forall k :: 0 <= k < |defs| ==> Encoded(defs)[k] == EncodeLine(defs[k])
  {
    if defs != [] {
      var init, last := defs[..|defs| - 1], defs[|defs| - 1];
      EncodedClean(init);
      LineRoundTrip(last);
      EncodedSnoc(init, last);
      assert defs == init + [last];
    }
  }

  /** In a store of clean records, record `i` owns line `i`, with the records before and after it on either side. */
  lemma EncodedAround(defs: seq<Service>, i: int)
    requires forall k :: 0 <= k < |defs| ==> Clean(defs[k])
    requires 0 <= i < |defs|
    ensures Encoded(defs) == Encoded(defs[..i]) + [EncodeLine(defs[i])] + Encoded(defs[i + 1..])
    ensures |Encoded(defs[..i])| == i
  {
    assert defs == defs[..i] + [defs[i]] + defs[i + 1..];
    EncodedAppend(defs[..i] + [defs[i]], defs[i + 1..]);
    EncodedSnoc(defs[..i], defs[i]);
    LineRoundTrip(defs[i]);
    EncodedClean(defs[..i]);
  }
}
