/** Cutting the byte stream back into messages: RonghuaSocketClient::do_read, which re-parses what it has gathered so
    far. */
module SocketStream {
  import opened Wrappers
  import opened InputQueue

  // ---------- one JSON object, by its brackets (RFC 8259, sections 2, 4 and 7) ----------

  datatype Quoting = Plain | InString | Escaped

  /** Before the object, inside it, after it, past it into something else, or not an object at all. */
  datatype Place = Before | Inside(depth: nat, quoting: Quoting) | After | Overrun | NotObject

  predicate IsSpace(c: char) {
    c == ' ' || c == '\t' || c == '\n' || c == '\r'
  }

  function Next(p: Place, c: char): Place {
    match p
    case Before => if IsSpace(c) then Before else if c == '{' then Inside(1, Plain) else NotObject
    case Inside(d, Plain) =>
      if c == '"' then Inside(d, InString)
      else if c == '{' || c == '[' then Inside(d + 1, Plain)
      else if c == '}' || c == ']' then if d <= 1 then After else Inside(d - 1, Plain)
      else p
    case Inside(d, InString) => if c == '\\' then Inside(d, Escaped) else if c == '"' then Inside(d, Plain) else p
    case Inside(d, Escaped) => Inside(d, InString)
    case After => if IsSpace(c) then After else Overrun
    case Overrun => Overrun
    case NotObject => NotObject
  }

  /** The place after the text, from a given place. */
  function Scan(p: Place, text: string): Place
    decreases |text|
  {
    if text == "" then p else Next(Scan(p, text[..|text| - 1]), text[|text| - 1])
  }

  lemma {:induction false} ScanAppend(p: Place, a: string, b: string)
    ensures Scan(p, a + b) == Scan(Scan(p, a), b)
    decreases |b|
  {
    if b == "" {
      assert a + b == a;
    } else {
      var front := b[..|b| - 1];
      assert (a + b)[..|a + b| - 1] == a + front;
      ScanAppend(p, a, front);
    }
  }

  predicate Spaces(text: string) {
    forall i :: 0 <= i < |text| ==> IsSpace(text[i])
  }

  lemma {:induction false} ScanSpaces(text: string)
    requires Spaces(text)
    ensures Scan(Before, text) == Before && Scan(After, text) == After
    decreases |text|
  {
    if text != "" {
      ScanSpaces(text[..|text| - 1]);
    }
  }

  /** Past an object there is no way back. */
  lemma {:induction false} Absorbing(p: Place, text: string)
    ensures p == Overrun ==> Scan(p, text) == Overrun
    ensures p == NotObject ==> Scan(p, text) == NotObject
    ensures p == After ==> Scan(p, text) == if Spaces(text) then After else Overrun
    decreases |text|
  {
    if text != "" {
      var front := text[..|text| - 1];
      Absorbing(p, front);
      assert text == front + [text[|text| - 1]];
      assert Spaces(text) <==> Spaces(front) && IsSpace(text[|text| - 1]);
    }
  }

  /** The text of an object: it opens at once and closes with its last character. */
  predicate IsObject(text: string) {
    text != "" && text[0] == '{' && !IsSpace(text[|text| - 1]) && Scan(Before, text) == After
  }

  /** No proper prefix of an object is complete. */
  lemma PrefixIsInside(text: string, n: nat)
    requires IsObject(text) && 0 < n < |text|
    ensures Scan(Before, text[..n]).Inside?
  {
    var head, tail := text[..n], text[n..];
    assert text == head + tail;
    ScanAppend(Before, head, tail);
    Absorbing(Scan(Before, head), tail);
    assert tail[|tail| - 1] == text[|text| - 1];
    assert !Spaces(tail);
    assert head == "{" + head[1..];
    ScanAppend(Before, "{", head[1..]);
    assert Scan(Before, "{") == Inside(1, Plain) by { assert "{"[..0] == ""; }
    NeverBack(Inside(1, Plain), head[1..]);
  }

  lemma {:induction false} NeverBack(p: Place, text: string)
    requires p != Before
    ensures Scan(p, text) != Before
    decreases |text|
  {
    if text != "" {
      NeverBack(p, text[..|text| - 1]);
    }
  }

  // ---------- the parser ----------

  /** What is asked of the JSON parser: a text that opens an object parses only if it is that one object and white
      space. */
  ghost predicate SoundParser<J(!new)>(parse: string -> Option<J>) {
    forall text: string :: parse(text).Some? ==> Scan(Before, text) == After || Scan(Before, text) == NotObject
  }

  /** An object in white space parses as the object. */
  ghost predicate Parses<J(!new)>(parse: string -> Option<J>, text: string) {
    && parse(text).Some?
    && forall pre: string, post: string :: Spaces(pre) && Spaces(post) ==> parse(pre + text + post) == parse(text)
  }

  // ---------- do_read ----------

  /** One read: what is gathered afterwards, and the message pushed, if any. */
  function Read<J>(parse: string -> Option<J>, gathered: string, chunk: string): (string, Option<J>) {
    if chunk == "" then (gathered, None)
    else
      var candidate := gathered + chunk;
      match parse(candidate)
      case Some(message) => ("", Some(message))
      case None => (candidate, None)
  }

  class RonghuaSocketReader<J> {
    var oss: string
    const queue: RonghuaInputQueue<J>

    constructor (queue: RonghuaInputQueue<J>)
      ensures oss == "" && this.queue == queue
    {
      oss, this.queue := "", queue;
    }

    method DoRead(parse: string -> Option<J>, fromJson: J -> Message<J>, chunk: string)
      modifies this, queue
      ensures oss == Read(parse, old(oss), chunk).0
      ensures var pushed := Read(parse, old(oss), chunk).1;
              queue.queue == (if pushed.Some? then [fromJson(pushed.value)] else []) + old(queue.queue)
    {
      if |chunk| > 0 {
        oss := oss + chunk;
        var candidateResponse := oss;
        var parsed := parse(candidateResponse);
        if parsed.Some? {
          queue.Push(fromJson(parsed.value));
          oss := "";
        }
      }
    }
  }

  // ---------- streams and their cuts ----------

  /** Objects at [starts[i], ends[i]) in the stream, white space everywhere else. */
  ghost predicate Framed<J(!new)>(parse: string -> Option<J>, stream: string, starts: seq<nat>, ends: seq<nat>) {
    && |starts| == |ends|
    && (forall i :: 0 <= i < |ends| ==> starts[i] < ends[i] <= |stream|)
    && (forall i, j :: 0 <= i < j < |ends| ==> ends[i] <= starts[j])
    && (forall i :: 0 <= i < |ends| ==>
          IsObject(stream[starts[i]..ends[i]]) && Parses(parse, stream[starts[i]..ends[i]]))
    && (forall p, n :: 0 <= p < |stream| && 0 <= n <= |ends| && InGap(starts, ends, n, p) ==> IsSpace(stream[p]))
  }

  /** Position p lies between object n - 1 and object n. */
  predicate InGap(starts: seq<nat>, ends: seq<nat>, n: nat, p: nat)
    requires |starts| == |ends| && n <= |ends|
  {
    (n > 0 ==> ends[n - 1] <= p) && (n < |ends| ==> p < starts[n])
  }

  /** Read k delivers the stream from cuts[k] to cuts[k + 1]. */
  predicate Cut(stream: string, cuts: seq<nat>) {
    && cuts != [] && cuts[0] == 0
    && (forall k :: 0 <= k < |cuts| ==> cuts[k] <= |stream|)
    && (forall k, j :: 0 <= k < j < |cuts| ==> cuts[k] <= cuts[j])
  }

  /** Read k holds the end of object i and the start of the next. */
  predicate Crosses(starts: seq<nat>, ends: seq<nat>, cuts: seq<nat>, k: nat, i: nat)
    requires |starts| == |ends| && i + 1 < |ends| && k + 1 < |cuts|
  {
    cuts[k] < ends[i] && starts[i + 1] < cuts[k + 1]
  }

  predicate NoCrossing(starts: seq<nat>, ends: seq<nat>, cuts: seq<nat>, count: nat)
    requires |starts| == |ends| && count < |cuts|
  {
    forall k, i :: 0 <= k < count && 0 <= i < |ends| - 1 ==> !Crosses(starts, ends, cuts, k, i)
  }

  /** What is gathered and what has been pushed after k reads. */
  function Run<J>(parse: string -> Option<J>, stream: string, cuts: seq<nat>, k: nat): (string, seq<J>)
    requires Cut(stream, cuts) && k < |cuts|
  {
    if k == 0 then ("", [])
    else
      var (gathered, pushed) := Run(parse, stream, cuts, k - 1);
      var (after, message) := Read(parse, gathered, stream[cuts[k - 1]..cuts[k]]);
      (after, pushed + if message.Some? then [message.value] else [])
  }

  /** The number of objects that end at or before a position. */
  function Ended(ends: seq<nat>, position: nat, n: nat): (r: nat)
    requires n <= |ends|
    ensures r <= n
  {
    if n == 0 then 0 else Ended(ends, position, n - 1) + if ends[n - 1] <= position then 1 else 0
  }

  lemma {:induction false} EndedIsPrefix(ends: seq<nat>, position: nat, n: nat)
    requires n <= |ends| && forall i, j :: 0 <= i < j < |ends| ==> ends[i] < ends[j]
    ensures forall i :: 0 <= i < n ==> (i < Ended(ends, position, n) <==> ends[i] <= position)
  {
    if n > 0 {
      EndedIsPrefix(ends, position, n - 1);
    }
  }

  function Messages<J>(parse: string -> Option<J>, stream: string, starts: seq<nat>, ends: seq<nat>, n: nat): seq<J>
    requires |starts| == |ends| && n <= |ends|
    requires forall i :: 0 <= i < n ==> starts[i] <= ends[i] <= |stream| && parse(stream[starts[i]..ends[i]]).Some?
  {
    if n == 0 then []
    else Messages(parse, stream, starts, ends, n - 1) + [parse(stream[starts[n - 1]..ends[n - 1]]).value]
  }

  // ---------- what a gathered piece of the stream is ----------

  /** White space from a to b, between object n - 1 and object n. */
  lemma GapIsSpace<J(!new)>(parse: string -> Option<J>, stream: string, starts: seq<nat>, ends: seq<nat>, n: nat,
                            a: nat, b: nat)
    requires Framed(parse, stream, starts, ends) && n <= |ends| && a <= b <= |stream|
    requires n > 0 ==> ends[n - 1] <= a
    requires n < |ends| ==> b <= starts[n]
    ensures Spaces(stream[a..b])
  {
    forall i | 0 <= i < b - a
      ensures IsSpace(stream[a..b][i])
    {
      assert InGap(starts, ends, n, a + i);
      assert stream[a..b][i] == stream[a + i];
    }
  }

  /** Where a piece may begin when object n is the next to be delivered. */
  ghost predicate StartsFor(starts: seq<nat>, ends: seq<nat>, n: nat, a: nat)
    requires |starts| == |ends| && n < |ends|
  {
    (n > 0 ==> ends[n - 1] <= a) && a <= starts[n]
  }

  /** A piece that stops short of the end of object n is not yet an object. */
  lemma PieceInside<J(!new)>(parse: string -> Option<J>, stream: string, starts: seq<nat>, ends: seq<nat>, n: nat,
                             a: nat, b: nat)
    requires Framed(parse, stream, starts, ends) && n < |ends| && a <= b < ends[n] && StartsFor(starts, ends, n, a)
    ensures b < ends[n] <= |stream|
    ensures Scan(Before, stream[a..b]) == Before || Scan(Before, stream[a..b]).Inside?
  {
    hide Parses;
    var s, e := starts[n], ends[n];
    if b <= s {
      GapIsSpace(parse, stream, starts, ends, n, a, b);
      ScanSpaces(stream[a..b]);
    } else {
      var gap, text := stream[a..s], stream[s..e];
      GapIsSpace(parse, stream, starts, ends, n, a, s);
      ScanSpaces(gap);
      assert stream[a..b] == gap + text[..b - s];
      ScanAppend(Before, gap, text[..b - s]);
      PrefixIsInside(text, b - s);
    }
  }

  /** A piece with object n and white space parses as the object. */
  lemma PieceParses<J(!new)>(parse: string -> Option<J>, stream: string, starts: seq<nat>, ends: seq<nat>, n: nat,
                             a: nat, b: nat)
    requires Framed(parse, stream, starts, ends) && n < |ends| && StartsFor(starts, ends, n, a)
    requires ends[n] <= b <= |stream| && (n + 1 < |ends| ==> b <= starts[n + 1])
    ensures parse(stream[a..b]) == parse(stream[starts[n]..ends[n]])
    ensures parse(stream[a..b]).Some?
  {
    var s, e := starts[n], ends[n];
    GapIsSpace(parse, stream, starts, ends, n, a, s);
    GapIsSpace(parse, stream, starts, ends, n + 1, e, b);
    assert stream[a..b] == stream[a..s] + stream[s..e] + stream[e..b];
  }

  /** A piece that runs from object n into object n + 1 has overrun. */
  lemma PieceOverruns<J(!new)>(parse: string -> Option<J>, stream: string, starts: seq<nat>, ends: seq<nat>, n: nat,
                               a: nat, b: nat)
    requires Framed(parse, stream, starts, ends) && n + 1 < |ends| && StartsFor(starts, ends, n, a)
    requires starts[n + 1] < b <= |stream|
    ensures a <= b && Scan(Before, stream[a..b]) == Overrun
  {
    hide Framed, Scan, Spaces, IsObject;
    StartsBeforeEnds(parse, stream, starts, ends, n + 1);
    FramedObject(parse, stream, starts, ends, n);
    FramedObject(parse, stream, starts, ends, n + 1);
    var s, e := starts[n], ends[n];
    var gap, text, rest := stream[a..s], stream[s..e], stream[e..b];
    GapIsSpace(parse, stream, starts, ends, n, a, s);
    ScanSpaces(gap);
    assert stream[a..b] == gap + text + rest;
    ScanAppend(Before, gap, text);
    ScanAppend(Before, gap + text, rest);
    Absorbing(After, rest);
    NotSpaces(rest, starts[n + 1] - e);
  }

  lemma NotSpaces(text: string, k: nat)
    requires k < |text| && text[k] == '{'
    ensures !Spaces(text)
  {
  }

  lemma FramedObject<J(!new)>(parse: string -> Option<J>, stream: string, starts: seq<nat>, ends: seq<nat>, n: nat)
    requires Framed(parse, stream, starts, ends) && n < |ends|
    ensures |starts| == |ends| && starts[n] < ends[n] <= |stream|
    ensures stream[starts[n]] == '{' && Scan(Before, stream[starts[n]..ends[n]]) == After
  {
    hide Scan;
    var text := stream[starts[n]..ends[n]];
    assert IsObject(text) && text[0] == stream[starts[n]];
  }

  // ---------- reassembly ----------

  /** What is gathered is the stream from the last delivered object, or white space after it, up to the last read. */
  ghost predicate OnTrack<J(!new)>(parse: string -> Option<J>, stream: string, starts: seq<nat>, ends: seq<nat>,
                                   cuts: seq<nat>, k: nat)
    requires Framed(parse, stream, starts, ends) && Cut(stream, cuts) && k < |cuts|
  {
    var n, position := Ended(ends, cuts[k], |ends|), cuts[k];
    var (gathered, pushed) := Run(parse, stream, cuts, k);
    && pushed == Messages(parse, stream, starts, ends, n)
    && |gathered| <= position && gathered == stream[position - |gathered|..position]
    && (n > 0 ==> ends[n - 1] <= position - |gathered|)
    && (n < |ends| ==> position - |gathered| <= starts[n])
  }

  lemma EndsIncrease<J(!new)>(parse: string -> Option<J>, stream: string, starts: seq<nat>, ends: seq<nat>,
                              position: nat)
    requires Framed(parse, stream, starts, ends)
    ensures forall i :: 0 <= i < |ends| ==> (i < Ended(ends, position, |ends|) <==> ends[i] <= position)
  {
    forall i, j | 0 <= i < j < |ends|
      ensures ends[i] < ends[j]
    {
      assert starts[j] < ends[j];
    }
    EndedIsPrefix(ends, position, |ends|);
  }

  /** What a read does to a piece of the stream on track: it delivers object n, or waits for more of it. */
  lemma ReadOfPiece<J(!new)>(parse: string -> Option<J>, stream: string, starts: seq<nat>, ends: seq<nat>, n: nat,
                             a: nat, q: nat)
    requires SoundParser(parse) && Framed(parse, stream, starts, ends) && n <= |ends| && a <= q <= |stream|
    requires n < |ends| ==> StartsFor(starts, ends, n, a)
    requires n == |ends| && n > 0 ==> ends[n - 1] <= a
    requires n + 1 < |ends| ==> q < ends[n] || q <= starts[n + 1]
    ensures if n < |ends| && ends[n] <= q then
              && starts[n] < ends[n] && parse(stream[a..q]).Some?
              && parse(stream[a..q]) == parse(stream[starts[n]..ends[n]])
            else parse(stream[a..q]).None?
  {
    if n == |ends| {
      GapIsSpace(parse, stream, starts, ends, n, a, q);
      ScanSpaces(stream[a..q]);
    } else if ends[n] <= q {
      PieceParses(parse, stream, starts, ends, n, a, q);
    } else {
      PieceInside(parse, stream, starts, ends, n, a, q);
    }
  }

  lemma FramedLengths<J(!new)>(parse: string -> Option<J>, stream: string, starts: seq<nat>, ends: seq<nat>)
    requires Framed(parse, stream, starts, ends)
    ensures |starts| == |ends|
  {
  }

  /** A read that does not cross ends at most one object. */
  lemma OneAtATime<J(!new)>(parse: string -> Option<J>, stream: string, starts: seq<nat>, ends: seq<nat>,
                            cuts: seq<nat>, k: nat)
    requires Framed(parse, stream, starts, ends) && Cut(stream, cuts) && k + 1 < |cuts|
    requires forall i :: 0 <= i < |ends| - 1 ==> !Crosses(starts, ends, cuts, k, i)
    ensures var n, m := Ended(ends, cuts[k], |ends|), Ended(ends, cuts[k + 1], |ends|);
            && m == (if n < |ends| && ends[n] <= cuts[k + 1] then n + 1 else n)
            && (n + 1 < |ends| ==> cuts[k + 1] < ends[n] || cuts[k + 1] <= starts[n + 1])
  {
    hide Framed, Ended;
    FramedLengths(parse, stream, starts, ends);
    var p, q := cuts[k], cuts[k + 1];
    var n, m := Ended(ends, p, |ends|), Ended(ends, q, |ends|);
    assert p <= q;
    EndsIncrease(parse, stream, starts, ends, p);
    EndsIncrease(parse, stream, starts, ends, q);
    if n > 0 {
      assert ends[n - 1] <= p;
      assert n - 1 < m;
    }
    if n < |ends| {
      assert p < ends[n];
      assert n < m <==> ends[n] <= q;
    }
    if n + 1 < |ends| {
      assert !Crosses(starts, ends, cuts, k, n);
      StartsBeforeEnds(parse, stream, starts, ends, n + 1);
      assert n + 1 < m <==> ends[n + 1] <= q;
    }
  }

  lemma StartsBeforeEnds<J(!new)>(parse: string -> Option<J>, stream: string, starts: seq<nat>, ends: seq<nat>, n: nat)
    requires Framed(parse, stream, starts, ends) && n < |ends|
    ensures starts[n] < ends[n] <= |stream|
    ensures n > 0 ==> starts[n - 1] < ends[n - 1] <= starts[n]
  {
  }

  /** A read that does not cross keeps the reassembly on track. */
  lemma ReadStaysOnTrack<J(!new)>(parse: string -> Option<J>, stream: string, starts: seq<nat>, ends: seq<nat>,
                                  cuts: seq<nat>, k: nat)
    requires SoundParser(parse) && Framed(parse, stream, starts, ends) && Cut(stream, cuts) && k + 1 < |cuts|
    requires OnTrack(parse, stream, starts, ends, cuts, k)
    requires forall i :: 0 <= i < |ends| - 1 ==> !Crosses(starts, ends, cuts, k, i)
    ensures OnTrack(parse, stream, starts, ends, cuts, k + 1)
  {
    hide SoundParser, Framed, Crosses, Ended;
    var p, q := cuts[k], cuts[k + 1];
    var n := Ended(ends, p, |ends|);
    var gathered := Run(parse, stream, cuts, k).0;
    var a := p - |gathered|;
    assert p <= q;
    assert gathered + stream[p..q] == stream[a..q];
    OneAtATime(parse, stream, starts, ends, cuts, k);
    ReadOfPiece(parse, stream, starts, ends, n, a, q);
    assert p == q ==> stream[p..q] == "";
    EndsIncrease(parse, stream, starts, ends, p);
  }

  lemma {:induction false} RunStaysOnTrack<J(!new)>(parse: string -> Option<J>, stream: string, starts: seq<nat>,
                                                    ends: seq<nat>, cuts: seq<nat>, k: nat)
    requires SoundParser(parse) && Framed(parse, stream, starts, ends) && Cut(stream, cuts) && k < |cuts|
    requires NoCrossing(starts, ends, cuts, k)
    ensures OnTrack(parse, stream, starts, ends, cuts, k)
  {
    if k == 0 {
      EndsIncrease(parse, stream, starts, ends, 0);
      if |ends| > 0 {
        assert starts[0] < ends[0];
      }
    } else {
      RunStaysOnTrack(parse, stream, starts, ends, cuts, k - 1);
      ReadStaysOnTrack(parse, stream, starts, ends, cuts, k - 1);
    }
  }

  lemma OverrunUnparsed<J(!new)>(parse: string -> Option<J>, text: string)
    requires SoundParser(parse) && Scan(Before, text) == Overrun
    ensures parse(text).None?
  {
  }

  /** Once what is gathered has overrun an object, nothing is ever pushed again. */
  lemma {:induction false} StuckForever<J(!new)>(parse: string -> Option<J>, stream: string, cuts: seq<nat>, k: nat,
                                                 j: nat)
    requires SoundParser(parse) && Cut(stream, cuts) && k <= j < |cuts|
    requires Scan(Before, Run(parse, stream, cuts, k).0) == Overrun
    ensures Scan(Before, Run(parse, stream, cuts, j).0) == Overrun
    ensures Run(parse, stream, cuts, j).1 == Run(parse, stream, cuts, k).1
    decreases j
  {
    hide SoundParser, Scan;
    if k < j {
      StuckForever(parse, stream, cuts, k, j - 1);
      assert cuts[j - 1] <= cuts[j];
      var gathered, chunk := Run(parse, stream, cuts, j - 1).0, stream[cuts[j - 1]..cuts[j]];
      ScanAppend(Before, gathered, chunk);
      Absorbing(Overrun, chunk);
      OverrunUnparsed(parse, gathered + chunk);
    }
  }

  lemma {:induction false} MessagesCount<J>(parse: string -> Option<J>, stream: string, starts: seq<nat>,
                                            ends: seq<nat>, n: nat)
    requires |starts| == |ends| && n <= |ends|
    requires forall i :: 0 <= i < n ==> starts[i] <= ends[i] <= |stream| && parse(stream[starts[i]..ends[i]]).Some?
    ensures |Messages(parse, stream, starts, ends, n)| == n
  {
    if n > 0 {
      MessagesCount(parse, stream, starts, ends, n - 1);
    }
  }

  lemma StartsInOrder<J(!new)>(parse: string -> Option<J>, stream: string, starts: seq<nat>, ends: seq<nat>, n: nat,
                               i: nat)
    requires Framed(parse, stream, starts, ends) && n <= i < |ends|
    ensures starts[n] <= starts[i]
  {
  }

  /** On track, at most the objects that ended have been delivered. */
  lemma DeliveredOnTrack<J(!new)>(parse: string -> Option<J>, stream: string, starts: seq<nat>, ends: seq<nat>,
                                  cuts: seq<nat>, k: nat)
    requires Framed(parse, stream, starts, ends) && Cut(stream, cuts) && k < |cuts|
    requires OnTrack(parse, stream, starts, ends, cuts, k)
    ensures |Run(parse, stream, cuts, k).1| == Ended(ends, cuts[k], |ends|)
  {
    MessagesCount(parse, stream, starts, ends, Ended(ends, cuts[k], |ends|));
  }

  /** A read that crosses leaves an overrun piece, and pushes nothing. */
  lemma CrossingOverruns<J(!new)>(parse: string -> Option<J>, stream: string, starts: seq<nat>, ends: seq<nat>,
                                  cuts: seq<nat>, k: nat, i: nat)
    requires SoundParser(parse) && Framed(parse, stream, starts, ends) && Cut(stream, cuts) && k + 1 < |cuts|
    requires OnTrack(parse, stream, starts, ends, cuts, k)
    requires i + 1 < |ends| && Crosses(starts, ends, cuts, k, i)
    ensures Ended(ends, cuts[k], |ends|) <= i
    ensures Scan(Before, Run(parse, stream, cuts, k + 1).0) == Overrun
    ensures Run(parse, stream, cuts, k + 1).1 == Run(parse, stream, cuts, k).1
  {
    hide SoundParser, Framed, Ended, Scan;
    var p, q := cuts[k], cuts[k + 1];
    var n := Ended(ends, p, |ends|);
    EndsIncrease(parse, stream, starts, ends, p);
    assert !(i < n);
    var gathered := Run(parse, stream, cuts, k).0;
    var a := p - |gathered|;
    StartsBeforeEnds(parse, stream, starts, ends, i + 1);
    StartsInOrder(parse, stream, starts, ends, n + 1, i + 1);
    PieceOverruns(parse, stream, starts, ends, n, a, q);
    OverrunUnparsed(parse, stream[a..q]);
    assert p <= q;
    assert gathered + stream[p..q] == stream[a..q];
    assert |stream[p..q]| == q - p > 0;
  }

  /** The first crossing read loses everything after the objects delivered so far. */
  lemma CrossingIsFatal<J(!new)>(parse: string -> Option<J>, stream: string, starts: seq<nat>, ends: seq<nat>,
                                 cuts: seq<nat>, k: nat, i: nat, j: nat)
    requires SoundParser(parse) && Framed(parse, stream, starts, ends) && Cut(stream, cuts) && k + 1 <= j < |cuts|
    requires NoCrossing(starts, ends, cuts, k)
    requires i + 1 < |ends| && Crosses(starts, ends, cuts, k, i)
    ensures |Run(parse, stream, cuts, j).1| <= i
  {
    hide SoundParser, Framed, Ended, Scan, OnTrack, Run;
    RunStaysOnTrack(parse, stream, starts, ends, cuts, k);
    DeliveredOnTrack(parse, stream, starts, ends, cuts, k);
    CrossingOverruns(parse, stream, starts, ends, cuts, k, i);
    StuckForever(parse, stream, cuts, k + 1, j);
  }

  /**
    * Reassembly, exactly: a stream read to its end is pushed message by message, in order and complete, if and only
    * if no single read holds the end of one object and the start of the next.
    */
  lemma ReassembledExactly<J(!new)>(parse: string -> Option<J>, stream: string, starts: seq<nat>, ends: seq<nat>,
                                    cuts: seq<nat>)
    requires SoundParser(parse) && Framed(parse, stream, starts, ends) && Cut(stream, cuts)
    requires cuts[|cuts| - 1] == |stream|
    ensures Run(parse, stream, cuts, |cuts| - 1).1 == Messages(parse, stream, starts, ends, |ends|)
       <==> NoCrossing(starts, ends, cuts, |cuts| - 1)
  {
    var last := |cuts| - 1;
    if NoCrossing(starts, ends, cuts, last) {
      RunStaysOnTrack(parse, stream, starts, ends, cuts, last);
      EndsIncrease(parse, stream, starts, ends, |stream|);
    } else {
      var k := FirstCrossing(starts, ends, cuts, last);
      var i :| 0 <= i < |ends| - 1 && Crosses(starts, ends, cuts, k, i);
      CrossingIsFatal(parse, stream, starts, ends, cuts, k, i, last);
      MessagesCount(parse, stream, starts, ends, |ends|);
    }
  }

  lemma {:induction false} FirstCrossing(starts: seq<nat>, ends: seq<nat>, cuts: seq<nat>, count: nat) returns (k: nat)
    requires |starts| == |ends| && count < |cuts| && !NoCrossing(starts, ends, cuts, count)
    ensures k < count && NoCrossing(starts, ends, cuts, k)
    ensures exists i :: 0 <= i < |ends| - 1 && Crosses(starts, ends, cuts, k, i)
  {
    if NoCrossing(starts, ends, cuts, count - 1) {
      k := count - 1;
    } else {
      k := FirstCrossing(starts, ends, cuts, count - 1);
    }
  }

  // ---------- an example ----------

  /** A parser that knows brackets only. */
  function BracketParser(): string -> Option<()> {
    text => if Scan(Before, text) == After then Some(()) else None
  }

  lemma EmptyObject()
    ensures IsObject("{}") && SoundParser(BracketParser()) && Parses(BracketParser(), "{}")
  {
    assert "{}"[..1] == "{" && "{"[..0] == "";
    assert Scan(Before, "{") == Inside(1, Plain);
    assert Scan(Before, "{}") == After;
    forall pre: string, post: string | Spaces(pre) && Spaces(post)
      ensures Scan(Before, pre + "{}" + post) == After
    {
      ScanAppend(Before, pre + "{}", post);
      ScanAppend(Before, pre, "{}");
      ScanSpaces(pre);
      ScanSpaces(post);
    }
  }

  lemma TwoObjects()
    ensures Framed(BracketParser(), "{}{}", [0, 2], [2, 4])
  {
    hide SoundParser, Parses, IsObject, Scan;
    EmptyObject();
    assert "{}{}"[0..2] == "{}" && "{}{}"[2..4] == "{}";
  }

  /** Two objects in one read are both lost. */
  lemma LostTogether()
    ensures SoundParser(BracketParser()) && Framed(BracketParser(), "{}{}", [0, 2], [2, 4]) && Cut("{}{}", [0, 4])
    ensures Run(BracketParser(), "{}{}", [0, 4], 1).1 == []
  {
    hide SoundParser, Framed, Run;
    EmptyObject();
    TwoObjects();
    assert Crosses([0, 2], [2, 4], [0, 4], 0, 0);
    CrossingIsFatal(BracketParser(), "{}{}", [0, 2], [2, 4], [0, 4], 0, 0, 1);
  }

  /** Cut between them, both arrive. */
  lemma DeliveredApart()
    ensures Cut("{}{}", [0, 2, 4]) && Run(BracketParser(), "{}{}", [0, 2, 4], 2).1 == [(), ()]
  {
    hide SoundParser, Framed, Run, Messages;
    EmptyObject();
    TwoObjects();
    ReassembledExactly(BracketParser(), "{}{}", [0, 2], [2, 4], [0, 2, 4]);
    BothMessages();
  }

  lemma BothMessages()
    requires Framed(BracketParser(), "{}{}", [0, 2], [2, 4])
    ensures Messages(BracketParser(), "{}{}", [0, 2], [2, 4], 2) == [(), ()]
  {
    hide Scan;
    MessagesCount(BracketParser(), "{}{}", [0, 2], [2, 4], 2);
  }
}
