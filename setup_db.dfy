/**
 * The part of the database set-up script that turns the text of the schema
 * file into the list of SQL commands it executes: split on `;`, trim each
 * piece, keep the pieces that are non-empty and do not start with `--`.
 */
module SetupDb {
  import opened JsString

  /** `s.split(sep)`: the pieces between occurrences of `sep`; there is always at least one. */
  function Split(s: string, sep: char): (r: seq<string>)
    ensures |r| >= 1
    ensures forall i :: 0 <= i < |r| ==> sep !in r[i]
    decreases |s|
  {
    if s == [] then [""]
    else
      var rest := Split(s[1..], sep);
      if s[0] == sep then [""] + rest
      else [[s[0]] + rest[0]] + rest[1..]
  }

  /** `parts.join(sep)`, the inverse of `Split`. */
  function Join(parts: seq<string>, sep: char): string
    requires |parts| >= 1
  {
    if |parts| == 1 then parts[0] else parts[0] + [sep] + Join(parts[1..], sep)
  }

  /** Joining the pieces again gives back the text that was split. */
  lemma {:induction false} JoinSplit(s: string, sep: char)
    ensures Join(Split(s, sep), sep) == s
    decreases |s|
  {
    if s != [] {
      var rest := Split(s[1..], sep);
      JoinSplit(s[1..], sep);
      if s[0] == sep {
        assert Split(s, sep) == [""] + rest;
        assert Join([""] + rest, sep) == "" + [sep] + Join(rest, sep);
      } else {
        var r := Split(s, sep);
        assert r == [[s[0]] + rest[0]] + rest[1..];
        if |rest| == 1 {
          assert r == [[s[0]] + rest[0]];
        } else {
          assert r[1..] == rest[1..];
          assert Join(rest, sep) == rest[0] + [sep] + Join(rest[1..], sep);
        }
      }
    }
  }

  /** Splitting a concatenation around one separator splits each side. */
  lemma {:induction false} SplitAround(a: string, b: string, sep: char)
    ensures Split(a + [sep] + b, sep) == Split(a, sep) + Split(b, sep)
    decreases |a|
  {
    if a == [] {
      assert [sep] + b == (a + [sep] + b);
      assert ([sep] + b)[1..] == b;
    } else {
      var s := a + [sep] + b;
      assert s[1..] == a[1..] + [sep] + b;
      SplitAround(a[1..], b, sep);
    }
  }

  /** A text without the separator is a single piece. */
  lemma {:induction false} SplitNoSeparator(s: string, sep: char)
    requires sep !in s
    ensures Split(s, sep) == [s]
    decreases |s|
  {
    if s != [] {
      SplitNoSeparator(s[1..], sep);
      assert [s[0]] + s[1..] == s;
    }
  }

  /** Splitting what was joined gives back the pieces, when no piece holds the separator. */
  lemma {:induction false} SplitJoin(parts: seq<string>, sep: char)
    requires |parts| >= 1
    requires forall i :: 0 <= i < |parts| ==> sep !in parts[i]
    ensures Split(Join(parts, sep), sep) == parts
    decreases |parts|
  {
    SplitNoSeparator(parts[0], sep);
    if |parts| > 1 {
      SplitJoin(parts[1..], sep);
      SplitAround(parts[0], Join(parts[1..], sep), sep);
      assert parts == [parts[0]] + parts[1..];
    }
  }

  /** `.map(cmd => cmd.trim())`. */
  function TrimAll(chunks: seq<string>): (r: seq<string>)
    ensures |r| == |chunks|
    ensures forall i :: 0 <= i < |r| ==> r[i] == Trim(chunks[i])
  {
    if chunks == [] then [] else [Trim(chunks[0])] + TrimAll(chunks[1..])
  }

  /** The filter's test: a non-empty piece that does not start with a `--` comment. */
  predicate IsCommand(cmd: string) {
    |cmd| > 0 && !StartsWith(cmd, "--")
  }

  /** `.filter(cmd => cmd.length > 0 && !cmd.startsWith('--'))`. */
  function KeepCommands(chunks: seq<string>): (r: seq<string>)
    ensures |r| <= |chunks|
    ensures forall c :: c in r ==> c in chunks && IsCommand(c)
    ensures forall c :: c in chunks && IsCommand(c) ==> c in r
  {
    if chunks == [] then []
    else if IsCommand(chunks[0]) then [chunks[0]] + KeepCommands(chunks[1..])
    else KeepCommands(chunks[1..])
  }

  /** Filtering a concatenation filters each part, keeping the order. */
  lemma {:induction false} KeepCommandsAppend(a: seq<string>, b: seq<string>)
    ensures KeepCommands(a + b) == KeepCommands(a) + KeepCommands(b)
    decreases |a|
  {
    if a != [] {
      assert (a + b)[1..] == a[1..] + b;
      KeepCommandsAppend(a[1..], b);
    } else {
      assert a + b == b;
    }
  }

  /** Trimming a concatenation trims each part. */
  lemma {:induction false} TrimAllAppend(a: seq<string>, b: seq<string>)
    ensures TrimAll(a + b) == TrimAll(a) + TrimAll(b)
    decreases |a|
  {
    if a != [] {
      assert (a + b)[1..] == a[1..] + b;
      TrimAllAppend(a[1..], b);
    } else {
      assert a + b == b;
    }
  }

  /** The commands the script executes, in file order. */
  function SqlCommands(content: string): (r: seq<string>)
    ensures forall c :: c in r ==> c != "" && !StartsWith(c, "--")
    ensures forall c :: c in r ==> Trim(c) == c && ';' !in c
  {
    var chunks := Split(content, ';');
    var trimmed := TrimAll(chunks);
    TrimmedChunks(chunks, trimmed);
    KeepCommands(trimmed)
  }

  /** Every trimmed piece is its own trim and, like the piece, holds no `;`. */
  lemma TrimmedChunks(chunks: seq<string>, trimmed: seq<string>)
    requires forall i :: 0 <= i < |chunks| ==> ';' !in chunks[i]
    requires |trimmed| == |chunks|
    requires forall i :: 0 <= i < |chunks| ==> trimmed[i] == Trim(chunks[i])
    ensures forall c :: c in trimmed ==> Trim(c) == c && ';' !in c
  {
    forall c | c in trimmed
      ensures Trim(c) == c && ';' !in c
    {
      var i :| 0 <= i < |trimmed| && trimmed[i] == c;
      TrimIdempotent(chunks[i]);
    }
  }

  /** Two scripts joined by `;` yield the commands of the first followed by those of the second. */
  lemma CommandsInFileOrder(a: string, b: string)
    ensures SqlCommands(a + [';'] + b) == SqlCommands(a) + SqlCommands(b)
  {
    SplitAround(a, b, ';');
    TrimAllAppend(Split(a, ';'), Split(b, ';'));
    KeepCommandsAppend(TrimAll(Split(a, ';')), TrimAll(Split(b, ';')));
  }

  /** A piece whose trimmed text starts with `--` is dropped whole, whatever SQL follows it. */
  lemma CommentLedChunkDropped(chunk: string)
    requires ';' !in chunk
    requires StartsWith(Trim(chunk), "--")
    ensures SqlCommands(chunk) == []
  {
    SplitNoSeparator(chunk, ';');
    assert TrimAll([chunk]) == [Trim(chunk)];
  }

  /** A piece with text that is not a comment becomes exactly one command, its trimmed text. */
  lemma StatementChunkKept(chunk: string)
    requires ';' !in chunk
    requires Trim(chunk) != "" && !StartsWith(Trim(chunk), "--")
    ensures SqlCommands(chunk) == [Trim(chunk)]
  {
    SplitNoSeparator(chunk, ';');
    assert TrimAll([chunk]) == [Trim(chunk)];
  }
}
