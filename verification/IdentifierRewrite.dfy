/** The streaming find-and-replace of scripts/rewrite-synthetic-identifier.py. */
module IdentifierRewrite {
  import opened Bytes
  import opened Sequences
  import opened Streams
  import opened Wrappers

  const CHUNK_BYTES := 65_536

  // ---------------------------------------------------------------- reference definition

  /** Replacement over a whole text, reading it one byte at a time from the left. */
  function Replaced(text: seq<Byte>, source: seq<Byte>, replacement: seq<Byte>): seq<Byte>
    requires |source| > 0
    decreases |text|
  {
    if |text| < |source| then text
    else if text[..|source|] == source then replacement + Replaced(text[|source|..], source, replacement)
    else [text[0]] + Replaced(text[1..], source, replacement)
  }

  /** How often Replaced replaces. */
  function Replacements(text: seq<Byte>, source: seq<Byte>): nat
    requires |source| > 0
    decreases |text|
  {
    if |text| < |source| then 0
    else if text[..|source|] == source then 1 + Replacements(text[|source|..], source)
    else Replacements(text[1..], source)
  }

  /** A text cut at some occurrences of a separator. */
  datatype Pieces = Last(tail: seq<Byte>) | Before(gap: seq<Byte>, next: Pieces)

  function Joined(pieces: Pieces, separator: seq<Byte>): seq<Byte> {
    match pieces
    case Last(tail) => tail
    case Before(gap, next) => gap + (separator + Joined(next, separator))
  }

  function Cuts(pieces: Pieces): nat {
    match pieces
    case Last(_) => 0
    case Before(_, next) => 1 + Cuts(next)
  }

  /** No occurrence starts before the given position. */
  ghost predicate NoneBefore(text: seq<Byte>, source: seq<Byte>, end: nat) {
    forall at :: 0 <= at < end ==> !OccursAt(text, source, at)
  }

  /** Every cut is made at the first occurrence that starts at or after the cut before it, and no
      occurrence is left behind the last cut. */
  ghost predicate CutLeftmost(pieces: Pieces, source: seq<Byte>) {
    match pieces
    case Last(tail) => NoneBefore(tail, source, |tail| + 1)
    case Before(gap, next) => NoneBefore(gap + source, source, |gap|) && CutLeftmost(next, source)
  }

  // ---------------------------------------------------------------- what the reference means

  function Prepend(first: Byte, pieces: Pieces): Pieces {
    match pieces
    case Last(tail) => Last([first] + tail)
    case Before(gap, next) => Before([first] + gap, next)
  }

  lemma PrependJoins(first: Byte, pieces: Pieces, separator: seq<Byte>)
    ensures Joined(Prepend(first, pieces), separator) == [first] + Joined(pieces, separator)
    ensures Cuts(Prepend(first, pieces)) == Cuts(pieces)
  {
    if pieces.Before? {
      Associative([first], pieces.gap, separator + Joined(pieces.next, separator));
    }
  }

  /** The reference replaces the leftmost non-overlapping occurrences and nothing else: the text is
      the pieces joined by the source, the result is the same pieces joined by the replacement. */
  lemma {:induction false} ReplacedIsLeftmost(text: seq<Byte>, source: seq<Byte>, replacement: seq<Byte>)
    returns (pieces: Pieces)
    requires |source| > 0
    ensures Joined(pieces, source) == text && CutLeftmost(pieces, source)
    ensures Replaced(text, source, replacement) == Joined(pieces, replacement)
    ensures Replacements(text, source) == Cuts(pieces)
    decreases |text|
  {
    hide CutLeftmost;
    if |text| < |source| {
      pieces := Last(text);
      LastIsLeftmost(text, source);
    } else if text[..|source|] == source {
      var next := ReplacedIsLeftmost(text[|source|..], source, replacement);
      pieces := Before([], next);
      HereIsLeftmost(next, source);
      assert text == source + text[|source|..];
    } else {
      var rest := ReplacedIsLeftmost(text[1..], source, replacement);
      pieces := Prepend(text[0], rest);
      PrependJoins(text[0], rest, source);
      PrependJoins(text[0], rest, replacement);
      assert text == [text[0]] + text[1..];
      PrependIsLeftmost(text[0], rest, source);
    }
  }

  lemma LastIsLeftmost(text: seq<Byte>, source: seq<Byte>)
    requires |text| < |source|
    ensures CutLeftmost(Last(text), source)
  {
  }

  lemma HereIsLeftmost(next: Pieces, source: seq<Byte>)
    requires CutLeftmost(next, source)
    ensures CutLeftmost(Before([], next), source)
  {
  }

  lemma PrependIsLeftmost(first: Byte, pieces: Pieces, source: seq<Byte>)
    requires |source| > 0 && CutLeftmost(pieces, source)
    requires var text := [first] + Joined(pieces, source); |text| >= |source| && text[..|source|] != source
    ensures CutLeftmost(Prepend(first, pieces), source)
  {
    var text := [first] + Joined(pieces, source);
    var reach := if pieces.Last? then pieces.tail else pieces.gap + source;
    if pieces.Before? {
      assert text == ([first] + reach) + Joined(pieces.next, source);
      assert ([first] + pieces.gap) + source == [first] + reach;
    }
    forall at | 0 <= at < |reach| + 2 && (pieces.Last? || at < |pieces.gap| + 1)
      ensures !OccursAt([first] + reach, source, at)
    {
      if at > 0 {
        OccursBehind(first, reach, source, at - 1);
      } else if |source| <= |reach| + 1 {
        assert ([first] + reach)[..|source|] == text[..|source|];
      }
    }
  }

  lemma OccursBehind(first: Byte, text: seq<Byte>, source: seq<Byte>, at: nat)
    ensures OccursAt([first] + text, source, at + 1) <==> OccursAt(text, source, at)
  {
    if at + |source| <= |text| {
      assert ([first] + text)[at + 1..at + 1 + |source|] == text[at..at + |source|];
    }
  }

  /** A text can be cut at its leftmost non-overlapping occurrences in one way only. */
  lemma {:induction false} LeftmostIsUnique(a: Pieces, b: Pieces, source: seq<Byte>)
    requires CutLeftmost(a, source) && CutLeftmost(b, source)
    requires Joined(a, source) == Joined(b, source)
    ensures a == b
    decreases a
  {
    var text := Joined(a, source);
    if a.Before? {
      FirstCut(a, source);
    }
    if b.Before? {
      FirstCut(b, source);
    }
    if a.Before? && b.Before? {
      assert |a.gap| == |b.gap|;
      assert a.gap == text[..|a.gap|] && b.gap == text[..|b.gap|];
      assert Joined(a.next, source) == text[|a.gap| + |source|..];
      assert Joined(b.next, source) == text[|b.gap| + |source|..];
      LeftmostIsUnique(a.next, b.next, source);
    }
  }

  lemma FirstCut(pieces: Pieces, source: seq<Byte>)
    requires pieces.Before? && CutLeftmost(pieces, source)
    ensures OccursAt(Joined(pieces, source), source, |pieces.gap|)
    ensures NoneBefore(Joined(pieces, source), source, |pieces.gap|)
  {
    var text := Joined(pieces, source);
    var reach := pieces.gap + source;
    assert text == reach + Joined(pieces.next, source);
    assert text[|pieces.gap|..|reach|] == source;
    forall at | 0 <= at < |pieces.gap| ensures !OccursAt(text, source, at) {
      assert text[at..at + |source|] == reach[at..at + |source|];
      assert !OccursAt(reach, source, at);
    }
  }

  /** The guard of the command line keeps the length of the media. */
  lemma {:induction false} EqualLengthsKeepTheSize(text: seq<Byte>, source: seq<Byte>, replacement: seq<Byte>)
    requires |source| > 0 && |source| == |replacement|
    ensures |Replaced(text, source, replacement)| == |text|
    decreases |text|
  {
    if |text| >= |source| {
      EqualLengthsKeepTheSize(text[(if text[..|source|] == source then |source| else 1)..], source, replacement);
    }
  }

  /** When exactly one replacement is counted, one window changed and every other occurrence of the
      source overlaps it. */
  lemma OneReplacementIsOneWindow(text: seq<Byte>, source: seq<Byte>, replacement: seq<Byte>)
    returns (before: seq<Byte>, after: seq<Byte>)
    requires |source| > 0 && Replacements(text, source) == 1
    ensures text == before + (source + after)
    ensures Replaced(text, source, replacement) == before + (replacement + after)
    ensures NoneBefore(text, source, |before|) && NoneBefore(after, source, |after| + 1)
  {
    var pieces := ReplacedIsLeftmost(text, source, replacement);
    assert pieces.Before? && pieces.next.Last?;
    before, after := pieces.gap, pieces.next.tail;
    FirstCut(pieces, source);
    assert CutLeftmost(pieces.next, source);
  }

  // ---------------------------------------------------------------- the streaming loop

  /** `bytes.find`: the first position, or -1. */
  function Find(text: seq<Byte>, source: seq<Byte>): (position: int)
    ensures -1 <= position
    ensures position >= 0 ==> OccursAt(text, source, position) && position + |source| <= |text|
    ensures forall at :: OccursAt(text, source, at) ==> 0 <= position <= at
  {
    FindFrom(text, source, 0)
  }

  function FindFrom(text: seq<Byte>, source: seq<Byte>, from: nat): (position: int)
    requires from <= |text|
    ensures position == -1 || from <= position
    ensures position >= 0 ==> OccursAt(text, source, position)
    ensures forall at :: from <= at && OccursAt(text, source, at) ==> 0 <= position <= at
    decreases |text| - from
  {
    if OccursAt(text, source, from) then from
    else if from == |text| then -1
    else FindFrom(text, source, from + 1)
  }

  lemma OccursInSuffix(text: seq<Byte>, source: seq<Byte>, k: nat, at: nat)
    requires k <= |text|
    ensures OccursAt(text[k..], source, at) <==> OccursAt(text, source, at + k)
  {
    if at + k + |source| <= |text| {
      assert text[k..][at..at + |source|] == text[at + k..at + k + |source|];
    }
  }

  /** Bytes before the first possible match pass through unchanged. */
  lemma {:induction false} UnmatchedPrefix(text: seq<Byte>, source: seq<Byte>, replacement: seq<Byte>, k: nat)
    requires |source| > 0 && k <= |text|
    requires forall at :: 0 <= at < k ==> !OccursAt(text, source, at)
    ensures Replaced(text, source, replacement) == text[..k] + Replaced(text[k..], source, replacement)
    ensures Replacements(text, source) == Replacements(text[k..], source)
    decreases k
  {
    hide OccursAt;
    if k == 0 {
      assert text[0..] == text;
    } else if |text| < |source| {
      assert text == text[..k] + text[k..];
    } else {
      var next := text[1..];
      forall at | 0 <= at < k - 1 ensures !OccursAt(next, source, at) {
        OccursInSuffix(text, source, 1, at);
      }
      UnmatchedPrefix(next, source, replacement, k - 1);
      UnmatchedHead(text, source, replacement);
      assert next[k - 1..] == text[k..];
      assert text[..k] == [text[0]] + next[..k - 1];
      Associative([text[0]], next[..k - 1], Replaced(text[k..], source, replacement));
    }
  }

  lemma UnmatchedHead(text: seq<Byte>, source: seq<Byte>, replacement: seq<Byte>)
    requires 0 < |source| <= |text| && !OccursAt(text, source, 0)
    ensures Replaced(text, source, replacement) == [text[0]] + Replaced(text[1..], source, replacement)
    ensures Replacements(text, source) == Replacements(text[1..], source)
  {
    assert text[0..|source|] == text[..|source|];
  }

  /** An occurrence that lies inside the pending bytes is found there whatever follows them. */
  lemma OccursInPending(pending: seq<Byte>, rest: seq<Byte>, source: seq<Byte>, at: nat)
    requires at + |source| <= |pending|
    ensures OccursAt(pending + rest, source, at) <==> OccursAt(pending, source, at)
  {
    assert (pending + rest)[at..at + |source|] == pending[at..at + |source|];
  }

  lemma FirstMatchInPending(pending: seq<Byte>, rest: seq<Byte>, source: seq<Byte>, replacement: seq<Byte>)
    requires |source| > 0 && Find(pending, source) >= 0
    ensures var position := Find(pending, source); var after := pending[position + |source|..];
      && Replaced(pending + rest, source, replacement)
         == pending[..position] + (replacement + Replaced(after + rest, source, replacement))
      && Replacements(pending + rest, source) == 1 + Replacements(after + rest, source)
  {
    hide Replaced, Replacements;
    var position := Find(pending, source);
    var text := pending + rest;
    forall at | 0 <= at < position ensures !OccursAt(text, source, at) {
      OccursInPending(pending, rest, source, at);
    }
    UnmatchedPrefix(text, source, replacement, position);
    assert text[..position] == pending[..position];
    var after := pending[position + |source|..] + rest;
    assert text[position..] == source + after by {
      assert pending == pending[..position] + source + pending[position + |source|..];
    }
    MatchAtHead(after, source, replacement);
  }

  lemma MatchAtHead(after: seq<Byte>, source: seq<Byte>, replacement: seq<Byte>)
    requires |source| > 0
    ensures Replaced(source + after, source, replacement) == replacement + Replaced(after, source, replacement)
    ensures Replacements(source + after, source) == 1 + Replacements(after, source)
  {
    assert (source + after)[..|source|] == source && (source + after)[|source|..] == after;
  }

  lemma SafePrefixOfPending(pending: seq<Byte>, rest: seq<Byte>, source: seq<Byte>, replacement: seq<Byte>, safe: nat)
    requires |source| > 0 && Find(pending, source) < 0
    requires safe <= |pending| && (safe == 0 || safe + |source| - 1 <= |pending|)
    ensures Replaced(pending + rest, source, replacement)
         == pending[..safe] + Replaced(pending[safe..] + rest, source, replacement)
    ensures Replacements(pending + rest, source) == Replacements(pending[safe..] + rest, source)
  {
    forall at | 0 <= at < safe ensures !OccursAt(pending + rest, source, at) {
      OccursInPending(pending, rest, source, at);
    }
    UnmatchedPrefix(pending + rest, source, replacement, safe);
    assert (pending + rest)[safe..] == pending[safe..] + rest;
    assert (pending + rest)[..safe] == pending[..safe];
  }

  /** The loop invariant: what has been written, followed by the replacement over what is still
      pending or unread, is the output the whole input calls for; likewise for the count. */
  ghost predicate Progress(output: seq<Byte>, total: nat, source: seq<Byte>, replacement: seq<Byte>,
                           written: seq<Byte>, replacements: nat, pending: seq<Byte>, rest: seq<Byte>)
    requires |source| > 0
  {
    && output == written + Replaced(pending + rest, source, replacement)
    && total == replacements + Replacements(pending + rest, source)
  }

  lemma ProgressStarts(written: seq<Byte>, whole: seq<Byte>, source: seq<Byte>, replacement: seq<Byte>)
    requires |source| > 0
    ensures Progress(written + Replaced(whole, source, replacement), Replacements(whole, source), source, replacement,
                     written, 0, [], whole)
  {
    assert [] + whole == whole;
  }

  lemma ReplacingKeepsProgress(output: seq<Byte>, total: nat, source: seq<Byte>, replacement: seq<Byte>,
                               written: seq<Byte>, replacements: nat, pending: seq<Byte>, rest: seq<Byte>)
    requires |source| > 0 && Progress(output, total, source, replacement, written, replacements, pending, rest)
    requires Find(pending, source) >= 0
    ensures var position := Find(pending, source);
      Progress(output, total, source, replacement, written + pending[..position] + replacement, replacements + 1,
               pending[position + |source|..], rest)
  {
    FirstMatchInPending(pending, rest, source, replacement);
  }

  lemma EmittingSafeBytesKeepsProgress(output: seq<Byte>, total: nat, source: seq<Byte>, replacement: seq<Byte>,
                                       written: seq<Byte>, replacements: nat, pending: seq<Byte>, rest: seq<Byte>,
                                       safe: nat)
    requires |source| > 0 && Progress(output, total, source, replacement, written, replacements, pending, rest)
    requires Find(pending, source) < 0
    requires safe <= |pending| && (safe == 0 || safe + |source| - 1 <= |pending|)
    ensures Progress(output, total, source, replacement, written + pending[..safe], replacements, pending[safe..], rest)
  {
    SafePrefixOfPending(pending, rest, source, replacement, safe);
  }

  lemma ReadingKeepsProgress(output: seq<Byte>, total: nat, source: seq<Byte>, replacement: seq<Byte>,
                             written: seq<Byte>, replacements: nat, pending: seq<Byte>, chunk: seq<Byte>, rest: seq<Byte>)
    requires |source| > 0
    ensures Progress(output, total, source, replacement, written, replacements, pending, chunk + rest)
       <==> Progress(output, total, source, replacement, written, replacements, pending + chunk, rest)
  {
    assert pending + (chunk + rest) == (pending + chunk) + rest;
  }

  lemma ProgressEnds(output: seq<Byte>, total: nat, source: seq<Byte>, replacement: seq<Byte>,
                     written: seq<Byte>, replacements: nat, pending: seq<Byte>)
    requires |source| > 0 && Progress(output, total, source, replacement, written, replacements, pending, [])
    requires |pending| < |source|
    ensures written + pending == output && replacements == total
  {
    assert pending + [] == pending;
  }

  /** Standard input: an arbitrary split of the input into the chunks the reads return. */
  class InputStream {
    var chunks: seq<seq<Byte>>

    ghost predicate Valid()
      reads this
    {
      forall i :: 0 <= i < |chunks| ==> 0 < |chunks[i]| <= CHUNK_BYTES
    }

    ghost function Remaining(): seq<Byte>
      reads this
    {
      Flatten(chunks)
    }

    constructor (split: seq<seq<Byte>>)
      requires forall i :: 0 <= i < |split| ==> 0 < |split[i]| <= CHUNK_BYTES
      ensures Valid() && chunks == split
    {
      chunks := split;
    }

    /** The next chunk, empty exactly at the end of the input. */
    method Read() returns (chunk: seq<Byte>)
      requires Valid()
      modifies this
      ensures Valid() && |chunk| <= CHUNK_BYTES
      ensures old(Remaining()) == chunk + Remaining()
      ensures chunk == [] <==> old(chunks) == []
      ensures |chunks| == if old(chunks) == [] then 0 else |old(chunks)| - 1
    {
      if |chunks| == 0 {
        chunk := [];
      } else {
        chunk := chunks[0];
        chunks := chunks[1..];
      }
    }
  }

  /** Whatever the chunks are, the stream out is the replacement over the whole stream in. `carried` is
      the longest tail held at a read, shorter than the identifier; `peak` is the most the buffer holds. */
  method Rewrite(source: seq<Byte>, replacement: seq<Byte>, stdin: InputStream, stdout: OutputStream)
    returns (replacements: nat, ghost peak: nat, ghost carried: nat)
    requires |source| > 0 && stdin.Valid()
    modifies stdin, stdout
    ensures stdout.written == old(stdout.written) + Replaced(old(stdin.Remaining()), source, replacement)
    ensures replacements == Replacements(old(stdin.Remaining()), source)
    ensures stdin.Remaining() == []
    ensures carried < |source| && peak <= carried + CHUNK_BYTES
  {
    hide Progress, Replaced, Replacements, OccursAt;
    ghost var output := stdout.written + Replaced(stdin.Remaining(), source, replacement);
    ghost var total := Replacements(stdin.Remaining(), source);
    ProgressStarts(stdout.written, stdin.Remaining(), source, replacement);
    var pending: seq<Byte> := [];
    replacements, peak, carried := 0, 0, 0;
    var chunk := stdin.Read();
    while chunk != []
      invariant stdin.Valid() && |chunk| <= CHUNK_BYTES && peak <= carried + CHUNK_BYTES
      invariant |pending| <= carried < |source|
      invariant chunk == [] ==> stdin.chunks == []
      invariant Progress(output, total, source, replacement, stdout.written, replacements, pending,
                         chunk + stdin.Remaining())
      decreases |stdin.chunks|, |chunk|
    {
      ghost var rest := stdin.Remaining();
      ReadingKeepsProgress(output, total, source, replacement, stdout.written, replacements, pending, chunk, rest);
      pending := pending + chunk;
      peak := if |pending| > peak then |pending| else peak;
      var position := Find(pending, source);
      while position >= 0
        modifies stdout
        invariant position == Find(pending, source)
        invariant Progress(output, total, source, replacement, stdout.written, replacements, pending, rest)
        decreases |pending|
      {
        ReplacingKeepsProgress(output, total, source, replacement, stdout.written, replacements, pending, rest);
        stdout.Write(pending[..position]);
        stdout.Write(replacement);
        pending := pending[position + |source|..];
        replacements := replacements + 1;
        position := Find(pending, source);
      }
      var safe := if |pending| - |source| + 1 > 0 then |pending| - |source| + 1 else 0;
      EmittingSafeBytesKeepsProgress(output, total, source, replacement, stdout.written, replacements, pending,
                                     rest, safe);
      stdout.Write(pending[..safe]);
      pending := pending[safe..];
      carried := if |pending| > carried then |pending| else carried;
      chunk := stdin.Read();
    }
    assert chunk + stdin.Remaining() == [];
    ProgressEnds(output, total, source, replacement, stdout.written, replacements, pending);
    stdout.Write(pending);
  }

  // ---------------------------------------------------------------- the command line

  /** ASCII and 1..128 bytes, else a usage error. */
  function Identifier(value: string): (r: Result<seq<Byte>, string>)
    ensures r.Ok? <==> IsAscii(value) && 1 <= |value| <= 128
    ensures r.Ok? ==> r.value == Ascii(value)
  {
    if !IsAscii(value) then Err("identifiers must be ASCII")
    else if |value| == 0 || |value| > 128 then Err("identifiers must contain 1..128 bytes")
    else Ok(Ascii(value))
  }

  /** The whole command: exit status 2 before anything is read, 1 when the count is not one. */
  method Command(from: string, to: string, stdin: InputStream, stdout: OutputStream) returns (status: int)
    requires stdin.Valid()
    modifies stdin, stdout
    ensures status == 2 <==>
            Identifier(from).Err? || Identifier(to).Err? || |from| != |to| || Ascii(from) == Ascii(to)
    ensures status == 2 ==> stdout.written == old(stdout.written) && stdin.chunks == old(stdin.chunks)
    ensures status != 2 ==>
            && stdout.written
               == old(stdout.written) + Replaced(old(stdin.Remaining()), Ascii(from), Ascii(to))
            && |stdout.written| == |old(stdout.written)| + |old(stdin.Remaining())|
            && status == if Replacements(old(stdin.Remaining()), Ascii(from)) == 1 then 0 else 1
  {
    var source, replacement := Identifier(from), Identifier(to);
    if source.Err? || replacement.Err? {
      return 2;
    }
    if |source.value| != |replacement.value| || source.value == replacement.value {
      return 2;
    }
    EqualLengthsKeepTheSize(stdin.Remaining(), source.value, replacement.value);
    var replacements, _, _ := Rewrite(source.value, replacement.value, stdin, stdout);
    return if replacements != 1 then 1 else 0;
  }
}
