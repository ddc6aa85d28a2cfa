/** Reassembly of newline-terminated notification messages out of the text chunks that
    successive reads deliver (the read loop of ListenForNotificationsAsync in
    Services/CacheClient.cs). */
module Framing {
  import opened Sequences

  /** The delimiter that ends every message on the notification connection. */
  const Newline: char := '\n'

  /** `string.LastIndexOf(char)`: the last position of `c`, or -1. */
  function LastIndexOf(s: string, c: char): (r: int)
    ensures -1 <= r < |s|
    ensures r >= 0 ==> s[r] == c
    ensures forall k | r < k < |s| :: s[k] != c
  {
    if s == [] then -1
    else if s[|s| - 1] == c then |s| - 1
    else
      var k := LastIndexOf(s[..|s| - 1], c);
      assert s == s[..|s| - 1] + [s[|s| - 1]];
      k
  }

  /** `string.Split('\n')`: the pieces between delimiters, empty ones included, so there
      is always at least one. */
  function Split(s: string): (pieces: seq<string>)
    ensures |pieces| >= 1
  {
    if s == [] then [[]]
    else
      var rest := Split(s[1..]);
      if s[0] == Newline then [[]] + rest
      else [[s[0]] + rest[0]] + rest[1..]
  }

  /** No piece of a split holds a delimiter. */
  lemma {:induction false} SplitPiecesFree(s: string)
    ensures forall k | 0 <= k < |Split(s)| :: Newline !in Split(s)[k]
  {
    if s != [] {
      SplitPiecesFree(s[1..]);
      var rest := Split(s[1..]);
      if s[0] != Newline {
        forall k | 0 <= k < |Split(s)| ensures Newline !in Split(s)[k] {
          if k == 0 {
            assert Split(s)[0] == [s[0]] + rest[0];
          } else {
            assert Split(s)[k] == rest[k];
          }
        }
      }
    }
  }

  /** `string.Join("\n", pieces)`: the inverse of Split. */
  function Join(pieces: seq<string>): string
  {
    if |pieces| <= 1 then (if pieces == [] then [] else pieces[0])
    else pieces[0] + [Newline] + Join(pieces[1..])
  }

  /** Pieces with the empty ones dropped, order kept. */
  function RemoveEmpty(pieces: seq<string>): seq<string>
  {
    if pieces == [] then []
    else (if pieces[0] == [] then [] else [pieces[0]]) + RemoveEmpty(pieces[1..])
  }

  /** `string.Split('\n', StringSplitOptions.RemoveEmptyEntries)`: the non-empty pieces. */
  function SplitNonEmpty(s: string): seq<string>
  {
    RemoveEmpty(Split(s))
  }

  /** The pieces SplitNonEmpty hands out are exactly the non-empty pieces between
      delimiters, in order: none is empty, none holds a delimiter, and joining all pieces
      (the empty ones included) gives back the text. */
  lemma SplitNonEmptyPieces(s: string)
    ensures forall k | 0 <= k < |SplitNonEmpty(s)| ::
      SplitNonEmpty(s)[k] != [] && Newline !in SplitNonEmpty(s)[k]
    ensures SplitNonEmpty(s) == RemoveEmpty(Split(s)) && Join(Split(s)) == s
  {
    RemoveEmptyKeeps(Split(s));
    SplitPiecesFree(s);
    JoinSplit(s);
  }

  /** RemoveEmpty keeps the non-empty pieces and only them: what it keeps is a non-empty
      piece of the input, and every non-empty piece of the input is kept. */
  lemma {:induction false} RemoveEmptyKeeps(pieces: seq<string>)
    ensures forall k | 0 <= k < |RemoveEmpty(pieces)| ::
      RemoveEmpty(pieces)[k] != [] && RemoveEmpty(pieces)[k] in pieces
    ensures forall k | 0 <= k < |pieces| && pieces[k] != [] :: pieces[k] in RemoveEmpty(pieces)
  {
    if pieces != [] {
      RemoveEmptyKeeps(pieces[1..]);
      var head := if pieces[0] == [] then [] else [pieces[0]];
      assert RemoveEmpty(pieces) == head + RemoveEmpty(pieces[1..]);
      forall k | 0 <= k < |RemoveEmpty(pieces)|
        ensures RemoveEmpty(pieces)[k] != [] && RemoveEmpty(pieces)[k] in pieces
      {
        if k >= |head| {
          assert RemoveEmpty(pieces)[k] == RemoveEmpty(pieces[1..])[k - |head|];
          assert RemoveEmpty(pieces[1..])[k - |head|] in pieces[1..];
        }
      }
      forall k | 0 <= k < |pieces| && pieces[k] != []
        ensures pieces[k] in RemoveEmpty(pieces)
      {
        if k > 0 {
          assert pieces[k] == pieces[1..][k - 1];
        }
      }
    }
  }

  /** RemoveEmpty keeps every non-empty piece as often as it occurs, and no empty one. */
  lemma {:induction false} RemoveEmptyCounts(pieces: seq<string>)
    ensures forall x :: multiset(RemoveEmpty(pieces))[x] == if x == [] then 0 else multiset(pieces)[x]
  {
    if pieces != [] {
      RemoveEmptyCounts(pieces[1..]);
      var head := if pieces[0] == [] then [] else [pieces[0]];
      assert RemoveEmpty(pieces) == head + RemoveEmpty(pieces[1..]);
      assert pieces == [pieces[0]] + pieces[1..];
      assert multiset(pieces) == multiset{pieces[0]} + multiset(pieces[1..]);
      assert multiset(RemoveEmpty(pieces)) == multiset(head) + multiset(RemoveEmpty(pieces[1..]));
    }
  }

  /** Dropping empty pieces distributes over concatenation. */
  lemma {:induction false} RemoveEmptyAppend(a: seq<string>, b: seq<string>)
    ensures RemoveEmpty(a + b) == RemoveEmpty(a) + RemoveEmpty(b)
  {
    if a != [] {
      assert (a + b)[0] == a[0] && (a + b)[1..] == a[1..] + b;
      RemoveEmptyAppend(a[1..], b);
    } else {
      assert a + b == b;
    }
  }

  /** Pieces that are all non-empty survive RemoveEmpty unchanged. */
  lemma {:induction false} RemoveEmptyOfNonEmpty(pieces: seq<string>)
    requires forall k | 0 <= k < |pieces| :: pieces[k] != []
    ensures RemoveEmpty(pieces) == pieces
  {
    if pieces != [] {
      RemoveEmptyOfNonEmpty(pieces[1..]);
    }
  }

  /** The last delimiter of `a + "\n" + b`, when `b` has none, is the one added. */
  lemma LastIndexOfJoined(a: string, b: string)
    requires Newline !in b
    ensures LastIndexOf(a + [Newline] + b, Newline) == |a|
  {
    var s := a + [Newline] + b;
    var i := LastIndexOf(s, Newline);
    assert s[|a|] == Newline;
  }

  /** Splitting distributes over a delimiter. */
  lemma {:induction false} SplitJoined(a: string, b: string)
    ensures Split(a + [Newline] + b) == Split(a) + Split(b)
  {
    var s := a + [Newline] + b;
    if a == [] {
      assert s == [Newline] + b;
      assert s[1..] == b;
    } else {
      assert s[1..] == a[1..] + [Newline] + b;
      SplitJoined(a[1..], b);
    }
  }

  /** A delimiter-free text is its own single piece. */
  lemma {:induction false} SplitOfFree(s: string)
    requires Newline !in s
    ensures Split(s) == [s]
  {
    if s != [] {
      SplitOfFree(s[1..]);
      assert s == [s[0]] + s[1..];
    }
  }

  /** The non-empty pieces of `a + "\n" + b` are those of `a` followed by those of `b`. */
  lemma SplitNonEmptyJoined(a: string, b: string)
    ensures SplitNonEmpty(a + [Newline] + b) == SplitNonEmpty(a) + SplitNonEmpty(b)
  {
    SplitJoined(a, b);
    RemoveEmptyAppend(Split(a), Split(b));
  }

  /** Joining the pieces of a split gives back the text. */
  lemma {:induction false} JoinSplit(s: string)
    ensures Join(Split(s)) == s
  {
    if s != [] {
      JoinSplit(s[1..]);
      var rest := Split(s[1..]);
      if s[0] == Newline {
        assert Split(s) == [[]] + rest;
        JoinCons([], rest);
        SplitHead(s);
      } else {
        assert Split(s) == [[s[0]] + rest[0]] + rest[1..];
        JoinExtendHead(s[0], rest);
        SplitHead(s);
      }
    }
  }

  /** Joining a piece in front of at least one more puts a delimiter between them. */
  lemma JoinCons(p: string, rest: seq<string>)
    requires |rest| >= 1
    ensures Join([p] + rest) == p + [Newline] + Join(rest)
  {
    assert ([p] + rest)[0] == p && ([p] + rest)[1..] == rest;
  }

  /** Growing the first piece by one character in front grows the join by that character;
      JoinSplit's step when the text starts with an ordinary character. */
  lemma JoinExtendHead(c: char, rest: seq<string>)
    requires |rest| >= 1
    ensures Join([[c] + rest[0]] + rest[1..]) == [c] + Join(rest)
  {
    var r0, t := rest[0], rest[1..];
    if |rest| > 1 {
      JoinCons([c] + r0, t);
      assert rest == [r0] + t;
      JoinCons(r0, t);
      JoinAssoc(c, r0, Join(t));
    } else {
      assert [[c] + r0] + t == [[c] + r0];
    }
  }

  /** Regrouping a character, a piece, a delimiter and a tail. */
  lemma JoinAssoc(c: char, p: string, t: string)
    ensures [c] + p + [Newline] + t == [c] + (p + [Newline] + t)
  {
  }

  /** A non-empty text is its first character followed by the rest; closes JoinSplit's step. */
  lemma SplitHead(s: string)
    requires s != []
    ensures s == [s[0]] + s[1..] && [] + [Newline] + s[1..] == [Newline] + s[1..]
  {
  }

  /** Splitting a join of delimiter-free pieces gives back the pieces. */
  lemma {:induction false} SplitJoin(pieces: seq<string>)
    requires |pieces| >= 1
    requires forall k | 0 <= k < |pieces| :: Newline !in pieces[k]
    ensures Split(Join(pieces)) == pieces
  {
    SplitOfFree(pieces[0]);
    if |pieces| > 1 {
      SplitJoin(pieces[1..]);
      SplitJoined(pieces[0], Join(pieces[1..]));
      assert pieces == [pieces[0]] + pieces[1..];
    }
  }

  /** The text before the last delimiter (empty when there is none). */
  function Complete(s: string): string
  {
    var i := LastIndexOf(s, Newline);
    if i < 0 then [] else s[..i]
  }

  /** The text after the last delimiter: an unfinished message. */
  function Tail(s: string): string
  {
    var i := LastIndexOf(s, Newline);
    if i < 0 then s else s[i + 1..]
  }

  /** The messages a buffer holding `s` has complete. */
  function Frames(s: string): seq<string>
  {
    SplitNonEmpty(Complete(s))
  }

  /** A buffer either has no delimiter (nothing complete, all of it retained) or is its
      complete part, one delimiter and its retained tail; the tail never has a delimiter. */
  lemma FrameShape(s: string)
    ensures Newline !in s ==> Frames(s) == [] && Tail(s) == s
    ensures Newline in s ==> s == Complete(s) + [Newline] + Tail(s)
    ensures Newline !in Tail(s)
  {
    if Newline !in s {
      assert Split([]) == [[]];
    } else {
      var i := LastIndexOf(s, Newline);
      assert s == s[..i] + [Newline] + s[i + 1..];
    }
  }

  /** The decomposition of `a + "\n" + b` with `b` delimiter-free is `a` and `b`. */
  lemma FrameOfJoined(a: string, b: string)
    requires Newline !in b
    ensures Complete(a + [Newline] + b) == a && Tail(a + [Newline] + b) == b
  {
    LastIndexOfJoined(a, b);
    var s := a + [Newline] + b;
    assert s[..|a|] == a && s[|a| + 1..] == b;
  }

  /** Appending to a buffer: the complete messages of `s + c` are those of `s` followed by
      those completed within the retained tail of `s` plus `c`, and both leave the same tail. */
  lemma FramesAppend(s: string, c: string)
    ensures Frames(s + c) == Frames(s) + Frames(Tail(s) + c)
    ensures Tail(s + c) == Tail(Tail(s) + c)
  {
    FrameShape(s);
    if Newline in s {
      var C, T := Complete(s), Tail(s);
      FrameShape(T + c);
      if Newline in T + c {
        var C', T' := Complete(T + c), Tail(T + c);
        Regroup(C, T, c, C', T');
        FrameOfJoined(C + [Newline] + C', T');
        SplitNonEmptyJoined(C, C');
      } else {
        Regroup3(C, T, c);
        FrameOfJoined(C, T + c);
      }
    } else {
      SeqUnit(Frames(s + c));
    }
  }

  /** Regroups a buffer `C + "\n" + T` extended by `c`, when `T + c` itself has a last
      delimiter, so that FramesAppend can name the new complete part and tail. */
  lemma Regroup(C: string, T: string, c: string, C': string, T': string)
    requires T + c == C' + [Newline] + T'
    ensures (C + [Newline] + T) + c == (C + [Newline] + C') + [Newline] + T'
  {
    calc {
      (C + [Newline] + T) + c;
      C + [Newline] + (T + c);
      C + [Newline] + (C' + [Newline] + T');
      (C + [Newline] + C') + [Newline] + T';
    }
  }

  /** Regroups `m + "\n" + r` with `r` split at its delimiter, for FramesPrepend. */
  lemma RegroupPrepend(m: string, r: string, C: string, T: string)
    requires r == C + [Newline] + T
    ensures m + [Newline] + r == (m + [Newline] + C) + [Newline] + T
  {
  }

  /** Moves a chunk `c` inside the tail of `C + "\n" + T`, for FramesAppend's case where
      `T + c` holds no delimiter. */
  lemma Regroup3(C: string, T: string, c: string)
    ensures (C + [Newline] + T) + c == C + [Newline] + (T + c)
  {
  }

  /** A message followed by a delimiter contributes its own non-empty pieces ahead of
      whatever follows. */
  lemma FramesPrepend(m: string, r: string)
    ensures Frames(m + [Newline] + r) == SplitNonEmpty(m) + Frames(r)
    ensures Tail(m + [Newline] + r) == Tail(r)
  {
    FrameShape(r);
    if Newline in r {
      var C, T := Complete(r), Tail(r);
      RegroupPrepend(m, r, C, T);
      FrameOfJoined(m + [Newline] + C, T);
      SplitNonEmptyJoined(m, C);
    } else {
      FrameOfJoined(m, r);
      FrameShape([]);
      SeqUnit(SplitNonEmpty(m));
    }
  }

  /** The buffer a StringBuilder plays in the read loop. */
  class MessageBuffer {
    var content: string

    /** A connection starts with an empty buffer. */
    constructor ()
      ensures content == []
    {
      content := [];
    }

    /** One read: append the chunk; if the buffer now holds a delimiter, hand out the
        non-empty pieces before the last one and keep only what follows it. */
    method Feed(chunk: string) returns (messages: seq<string>)
      modifies this
      ensures var s := old(content) + chunk;
        && (Newline !in s ==> messages == [] && content == s)
        && (Newline in s ==> s == Complete(s) + [Newline] + content && messages == SplitNonEmpty(Complete(s)))
      ensures Newline !in content
      ensures messages == Frames(old(content) + chunk) && content == Tail(old(content) + chunk)
    {
      content := content + chunk;
      var text := content;
      FrameShape(text);
      var lastNewline := LastIndexOf(text, Newline);
      if lastNewline >= 0 {
        var completeMessages := text[..lastNewline];
        content := text[lastNewline + 1..];
        messages := SplitNonEmpty(completeMessages);
      } else {
        messages := [];
      }
    }
  }

  /** The text of several reads, in order. */
  function Concat(chunks: seq<string>): string
  {
    if chunks == [] then [] else chunks[0] + Concat(chunks[1..])
  }

  /** What successive Feeds emit, and the buffer they leave, starting from `buffer`. */
  function FeedAll(buffer: string, chunks: seq<string>): (seq<string>, string)
    decreases |chunks|
  {
    if chunks == [] then ([], buffer)
    else
      var s := buffer + chunks[0];
      var rest := FeedAll(Tail(s), chunks[1..]);
      (Frames(s) + rest.0, rest.1)
  }

  /** Feeding chunks after a prefix has been fed emits exactly the complete messages of the
      whole text that the prefix had not completed, and keeps the whole text's tail. */
  lemma {:induction false} FeedAllFrames(prefix: string, chunks: seq<string>)
    ensures Frames(prefix) + FeedAll(Tail(prefix), chunks).0 == Frames(prefix + Concat(chunks))
    ensures FeedAll(Tail(prefix), chunks).1 == Tail(prefix + Concat(chunks))
    decreases |chunks|
  {
    if chunks == [] {
      assert prefix + Concat(chunks) == prefix;
      SeqUnit(Frames(prefix));
    } else {
      FeedAllFrames(prefix + chunks[0], chunks[1..]);
      FeedAllStep(prefix, chunks);
    }
  }

  /** The inductive step of FeedAllFrames: what holds after the first chunk carries over to
      the whole list. */
  lemma FeedAllStep(prefix: string, chunks: seq<string>)
    requires chunks != []
    requires var whole := prefix + chunks[0];
      && Frames(whole) + FeedAll(Tail(whole), chunks[1..]).0 == Frames(whole + Concat(chunks[1..]))
      && FeedAll(Tail(whole), chunks[1..]).1 == Tail(whole + Concat(chunks[1..]))
    ensures Frames(prefix) + FeedAll(Tail(prefix), chunks).0 == Frames(prefix + Concat(chunks))
    ensures FeedAll(Tail(prefix), chunks).1 == Tail(prefix + Concat(chunks))
  {
    var c, rest := chunks[0], chunks[1..];
    ConcatCons(prefix, chunks);
    FramesAppend(prefix, c);
    var next := FeedAll(Tail(prefix + c), rest);
    SeqAssoc(Frames(prefix), Frames(Tail(prefix) + c), next.0);
  }

  /** Peels off the first chunk: the text after a prefix is the prefix with that chunk,
      then the rest; FeedAllStep uses it to go one feed forward. */
  lemma ConcatCons(prefix: string, chunks: seq<string>)
    requires chunks != []
    ensures prefix + Concat(chunks) == (prefix + chunks[0]) + Concat(chunks[1..])
  {
  }

  /** However the stream is cut into reads, a fresh buffer emits the complete messages of
      the concatenated text and retains its tail. */
  lemma ChunkingIrrelevant(a: seq<string>, b: seq<string>)
    requires Concat(a) == Concat(b)
    ensures FeedAll([], a) == FeedAll([], b) == (Frames(Concat(a)), Tail(Concat(a)))
  {
    FeedAllFromEmpty(a);
    FeedAllFromEmpty(b);
  }

  /** FeedAllFrames for a fresh buffer. */
  lemma FeedAllFromEmpty(chunks: seq<string>)
    ensures FeedAll([], chunks) == (Frames(Concat(chunks)), Tail(Concat(chunks)))
  {
    FrameShape([]);
    FeedAllFrames([], chunks);
    SeqUnit(FeedAll([], chunks).0);
    SeqUnit(Concat(chunks));
  }

  /** The wire form of a sequence of messages: each one followed by one delimiter. */
  function Stream(messages: seq<string>): string
  {
    if messages == [] then [] else messages[0] + [Newline] + Stream(messages[1..])
  }

  /** A wire message: not empty, and (being JSON) free of raw delimiters. */
  ghost predicate WellFormed(m: string)
  {
    m != [] && Newline !in m
  }

  /** Framing round trip: well-formed messages put on the wire, followed by part of a
      further message, come out as exactly those messages, and the part is retained. */
  lemma {:induction false} StreamFrames(messages: seq<string>, partial: string)
    requires forall k | 0 <= k < |messages| :: WellFormed(messages[k])
    requires Newline !in partial
    ensures Frames(Stream(messages) + partial) == messages
    ensures Tail(Stream(messages) + partial) == partial
  {
    if messages == [] {
      FrameShape(partial);
    } else {
      var m, rest := messages[0], Stream(messages[1..]) + partial;
      StreamFrames(messages[1..], partial);
      StreamCons(m, Stream(messages[1..]), partial);
      FramesPrepend(m, rest);
      SingleFrame(m);
      SplitCons(messages);
    }
  }

  /** Regroups the first message of a stream and the partial message after it, so that
      StreamFrames can apply FramesPrepend. */
  lemma StreamCons(m: string, tail: string, partial: string)
    ensures (m + [Newline] + tail) + partial == m + [Newline] + (tail + partial)
  {
  }

  /** A well-formed message on its own is its single non-empty piece. */
  lemma SingleFrame(m: string)
    requires WellFormed(m)
    ensures SplitNonEmpty(m) == [m]
  {
    SplitOfFree(m);
    RemoveEmptyOfNonEmpty([m]);
  }

  /** A non-empty list is its head followed by the rest; closes StreamFrames's step. */
  lemma SplitCons(messages: seq<string>)
    requires messages != []
    ensures messages == [messages[0]] + messages[1..]
  {
  }

  /** Two whole messages and half of a third in one read emit the two and retain the half;
      the third is emitted once its remainder and delimiter arrive in the next read. */
  lemma TwoMessagesAndAHalf(m1: string, m2: string, firstHalf: string, secondHalf: string)
    requires WellFormed(m1) && WellFormed(m2) && WellFormed(firstHalf + secondHalf)
    ensures var read1 := m1 + [Newline] + m2 + [Newline] + firstHalf;
            var read2 := secondHalf + [Newline];
      && Frames(read1) == [m1, m2] && Tail(read1) == firstHalf
      && Frames(Tail(read1) + read2) == [firstHalf + secondHalf] && Tail(Tail(read1) + read2) == []
  {
    var whole := firstHalf + secondHalf;
    assert Newline !in firstHalf by {
      assert forall k | 0 <= k < |firstHalf| :: firstHalf[k] == whole[k];
    }
    StreamOfTwo(m1, m2, firstHalf);
    StreamFrames([m1, m2], firstHalf);
    StreamOfOne(firstHalf, secondHalf);
    StreamFrames([whole], []);
  }

  /** The first read of TwoMessagesAndAHalf is the stream of its two messages plus the
      half, so that StreamFrames applies to it. */
  lemma StreamOfTwo(m1: string, m2: string, p: string)
    ensures m1 + [Newline] + m2 + [Newline] + p == Stream([m1, m2]) + p
  {
    assert [m1, m2][1..] == [m2];
    assert Stream([m2]) == m2 + [Newline];
    assert Stream([m1, m2]) == m1 + [Newline] + (m2 + [Newline]);
  }

  /** The retained half plus the second read is the stream of the one joined message, so
      that StreamFrames applies to it. */
  lemma StreamOfOne(a: string, b: string)
    ensures a + (b + [Newline]) == Stream([a + b]) + []
  {
  }
}
