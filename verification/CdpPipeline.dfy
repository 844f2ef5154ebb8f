/** `SendCommands`: sends each command and reads frames until the response with the command's id arrives.
    JSON parsing is a parameter; a command without an integer id counts as id -1, and so does a response. */
module CdpPipeline {

  import opened Bits
  import opened WebSocketCodec
  import opened WebSocketRoundTrip
  import opened Wrappers

  const MAX_READS: nat := 20

  /** What the pipeline looks at in a parsed frame; `Malformed` stands for text that is not a JSON dictionary. */
  datatype Json = Malformed | Dict(id: Option<int>)

  type Parser = seq<Byte> -> Json

  function IdOf(json: Json): int {
    if json.Dict? && json.id.Some? then json.id.value else -1
  }

  /** A frame the inner loop takes for the response to the command with id `expected`. */
  predicate Matches(parse: Parser, payload: seq<Byte>, expected: int) {
    payload != [] && parse(payload).Dict? && IdOf(parse(payload)) == expected
  }

  /** What the log says about one command. */
  datatype Outcome =
    | SendFailed
    | Answered(response: seq<Byte>, used: nat)
    | Unanswered(used: nat)

  /** Outcome of waiting, with at most `tries` reads, for the response with id `expected`, and the bytes left. */
  function Await(parse: Parser, s: seq<Byte>, expected: int, tries: nat, used: nat): (Outcome, seq<Byte>)
    decreases tries
  {
    if tries == 0 then (Unanswered(used), s)
    else
      var r := ReadSpec(s);
      if Matches(parse, r.payload, expected) then (Answered(r.payload, used + 1), r.rest)
      else Await(parse, r.rest, expected, tries - 1, used + 1)
  }

  /** Outcomes of the commands with the given ids over a stream and a socket that cannot fail. */
  function AwaitAll(parse: Parser, s: seq<Byte>, ids: seq<int>): (r: (seq<Outcome>, seq<Byte>))
    ensures |r.0| == |ids|
  {
    if ids == [] then ([], s)
    else
      var (init, rest) := AwaitAll(parse, s, ids[..|ids| - 1]);
      var (last, rest') := Await(parse, rest, ids[|ids| - 1], MAX_READS, 0);
      (init + [last], rest')
  }

  /** A log entry that some run of the inner loop can have produced. */
  predicate ValidEntry(parse: Parser, entry: Outcome, expected: int) {
    match entry
    case SendFailed => true
    case Answered(response, used) => 1 <= used <= MAX_READS && Matches(parse, response, expected)
    case Unanswered(used) => used == MAX_READS
  }

  function CommandIds(parse: Parser, commands: seq<seq<Byte>>): (ids: seq<int>)
    ensures |ids| == |commands|
  {
    seq(|commands|, i requires 0 <= i < |commands| => IdOf(parse(commands[i])))
  }

  /** The inner loop: reads at most 20 frames and stops at the first one that matches. */
  method AwaitResponse(sock: Socket, parse: Parser, expected: int) returns (entry: Outcome)
    requires sock.closes == 0
    modifies sock`incoming
    ensures !entry.SendFailed? && ValidEntry(parse, entry, expected)
    ensures sock.reliable ==> (entry, sock.incoming) == Await(parse, old(sock.incoming), expected, MAX_READS, 0)
  {
    hide ReadSpec, Suffix;
    ghost var goal := Await(parse, sock.incoming, expected, MAX_READS, 0);
    var retry := 0;
    while retry < MAX_READS
      invariant 0 <= retry <= MAX_READS
      invariant sock.reliable ==> Await(parse, sock.incoming, expected, MAX_READS - retry, retry) == goal
    {
      var response := ReadFrame(sock);
      retry := retry + 1;
      if response != [] {
        var parsed := parse(response);
        if parsed.Dict? {
          var responseId := IdOf(parsed);
          if responseId == expected {
            return Answered(response, retry);
          }
        }
      }
    }
    return Unanswered(retry);
  }

  /** Parses the ids of all commands before the first is sent. */
  method ReadCommandIds(parse: Parser, commands: seq<seq<Byte>>) returns (commandIds: seq<int>)
    ensures commandIds == CommandIds(parse, commands)
  {
    commandIds := [];
    while |commandIds| < |commands|
      invariant |commandIds| <= |commands| && commandIds == CommandIds(parse, commands)[..|commandIds|]
    {
      commandIds := commandIds + [IdOf(parse(commands[|commandIds|]))];
    }
  }

  /** The loop that sends each command and waits for its response; it ends at the first send that fails. */
  method RunCommands(sock: Socket, commands: seq<seq<Byte>>, commandIds: seq<int>, parse: Parser, masks: seq<Mask>)
    returns (allSuccess: bool, log: seq<Outcome>)
    requires |masks| == |commands| == |commandIds|
    requires forall i :: 0 <= i < |commands| ==> |commands[i]| < SIZE_LIMIT
    requires sock.closes == 0
    modifies sock`incoming, sock`outgoing
    ensures allSuccess <==> SendFailed !in log
    ensures sock.reliable ==> allSuccess
    ensures |log| <= |commands| && (allSuccess ==> |log| == |commands|)
    ensures forall i :: 0 <= i < |log| ==> ValidEntry(parse, log[i], commandIds[i])
    ensures allSuccess ==> sock.outgoing == old(sock.outgoing) + EncodeAll(ClientFrames(commands, masks))
    ensures sock.reliable ==> (log, sock.incoming) == AwaitAll(parse, old(sock.incoming), commandIds)
  {
    hide Encode, EncodeAll, ClientFrames, Await, AwaitAll, ValidEntry;
    ghost var outgoing, incoming := sock.outgoing, sock.incoming;
    NothingSent(parse, commands, commandIds, masks, incoming);
    allSuccess, log := true, [];
    var i := 0;
    while i < |commands|
      invariant 0 <= i <= |commands| && |log| == i && allSuccess && SendFailed !in log
      invariant sock.outgoing == outgoing + EncodeAll(ClientFrames(commands, masks)[..i])
      invariant forall k :: 0 <= k < i ==> ValidEntry(parse, log[k], commandIds[k])
      invariant sock.reliable ==> (log, sock.incoming) == AwaitAll(parse, incoming, commandIds[..i])
      decreases |commands| - i
    {
      var sent := SendFrame(sock, commands[i], masks[i]);
      if !sent {
        log := log + [SendFailed];
        EntryOfFailure(parse, commandIds[i]);
        allSuccess := false;
        return;
      }
      NextSent(commands, masks, i);
      NextAwaited(parse, incoming, commandIds, i);
      var entry := AwaitResponse(sock, parse, commandIds[i]);
      log := log + [entry];
      i := i + 1;
    }
    assert commandIds[..i] == commandIds && ClientFrames(commands, masks)[..i] == ClientFrames(commands, masks);
  }

  lemma NothingSent(parse: Parser, commands: seq<seq<Byte>>, ids: seq<int>, masks: seq<Mask>, s: seq<Byte>)
    requires |masks| == |commands|
    ensures EncodeAll(ClientFrames(commands, masks)[..0]) == [] && AwaitAll(parse, s, ids[..0]) == ([], s)
  {
  }

  lemma NextSent(commands: seq<seq<Byte>>, masks: seq<Mask>, i: nat)
    requires i < |commands| == |masks|
    ensures var frames := ClientFrames(commands, masks);
            EncodeAll(frames[..i + 1]) == EncodeAll(frames[..i]) + Encode(ClientFrame(commands[i], masks[i]))
  {
    hide Encode, EncodeAll;
    var frames := ClientFrames(commands, masks);
    EncodeAllAppend(frames[..i], frames[i]);
    assert frames[..i + 1] == frames[..i] + [frames[i]];
  }

  lemma NextAwaited(parse: Parser, s: seq<Byte>, ids: seq<int>, i: nat)
    requires i < |ids|
    ensures var init := AwaitAll(parse, s, ids[..i]);
            var last := Await(parse, init.1, ids[i], MAX_READS, 0);
            AwaitAll(parse, s, ids[..i + 1]) == (init.0 + [last.0], last.1)
  {
    hide Await;
    assert ids[..i + 1][..i] == ids[..i];
  }

  /** `SendCommands`.  `pageUrl` is the WebSocket URL that discovery found, empty if none; `connection` is what
      `TcpConnect` returns, null if it fails; `handshakeOk` is the result of the handshake; `masks` are the random
      masks.  The open socket is returned exactly when every step up to the last send succeeds; in every other run
      a socket that was opened is closed exactly once. */
  method SendCommands(commands: seq<seq<Byte>>, pageUrl: string, connection: Socket?, handshakeOk: bool,
                      parse: Parser, masks: seq<Mask>)
    returns (sock: Socket?, log: seq<Outcome>)
    requires |masks| == |commands| && forall i :: 0 <= i < |commands| ==> |commands[i]| < SIZE_LIMIT
    requires connection != null ==> connection.closes == 0
    modifies connection
    ensures sock != null <==> commands != [] && pageUrl != "" && connection != null && handshakeOk && SendFailed !in log
    ensures sock != null ==> sock == connection && sock.closes == 0 && |log| == |commands|
    ensures sock != null ==>
              sock.outgoing == old(connection.outgoing) + EncodeAll(ClientFrames(commands, masks))
    ensures sock == null && connection != null ==>
              connection.closes == if commands != [] && pageUrl != "" then 1 else 0
    ensures |log| <= |commands|
    ensures forall i :: 0 <= i < |log| ==> ValidEntry(parse, log[i], CommandIds(parse, commands)[i])
    ensures forall i :: 0 <= i < |log| && log[i].Answered? ==> RepliesTo(parse(commands[i]), parse(log[i].response))
    ensures sock != null && sock.reliable ==>
              (log, sock.incoming) == AwaitAll(parse, old(connection.incoming), CommandIds(parse, commands))
    ensures commands != [] && pageUrl != "" && connection != null && handshakeOk && connection.reliable ==> sock != null
  {
    hide Encode, Await, ValidEntry, CommandIds, ClientFrames, EncodeAll;
    log := [];
    if commands == [] {
      return null, log;
    }
    if pageUrl == "" {
      return null, log;
    }
    if connection == null {
      return null, log;
    }
    sock := connection;
    if !handshakeOk {
      sock.Close();
      return null, log;
    }
    var commandIds := ReadCommandIds(parse, commands);
    var allSuccess;
    allSuccess, log := RunCommands(sock, commands, commandIds, parse, masks);
    forall i | 0 <= i < |log| && log[i].Answered?
      ensures RepliesTo(parse(commands[i]), parse(log[i].response))
    {
      OwnReply(parse, commands, i, log[i]);
    }
    if allSuccess {
      return sock, log;
    }
    sock.Close();
    sock := null;
  }

  /** Whether a parsed frame replies to a parsed command: it carries the command's id.  To a command without an id, or
      with id -1, every dictionary without an id or with id -1 replies. */
  predicate RepliesTo(command: Json, response: Json) {
    match command
    case Dict(Some(k)) => if k == -1 then response in {Dict(None), Dict(Some(-1))} else response == Dict(Some(k))
    case _ => response in {Dict(None), Dict(Some(-1))}
  }

  lemma OwnReply(parse: Parser, commands: seq<seq<Byte>>, i: nat, entry: Outcome)
    requires i < |commands| && entry.Answered? && ValidEntry(parse, entry, CommandIds(parse, commands)[i])
    ensures RepliesTo(parse(commands[i]), parse(entry.response))
  {
  }

  lemma EntryOfFailure(parse: Parser, expected: int)
    ensures ValidEntry(parse, SendFailed, expected)
  {
  }

  lemma {:induction false} EncodeAllAppend(frames: seq<WireFrame>, f: WireFrame)
    ensures EncodeAll(frames + [f]) == EncodeAll(frames) + Encode(f)
  {
    hide Encode;
    if frames == [] {
      assert frames + [f] == [f] && [f][1..] == [];
    } else {
      EncodeAllAppend(frames[1..], f);
      assert (frames + [f])[1..] == frames[1..] + [f];
    }
  }

  // --- A well-behaved server ----------------------------------------------------------------------------

  /** What a server puts on the wire for one command: other frames (events, pings, pongs, stray or malformed
      messages), then the response. */
  datatype Reply = Reply(noise: seq<WireFrame>, response: WireFrame)

  /** Readable frames, and none in front of a response that could be taken for it. */
  predicate WellBehaved(parse: Parser, reply: Reply, expected: int) {
    && (forall f :: f in reply.noise ==> f.Readable() && !Matches(parse, f.Visible(), expected))
    && reply.response.Readable() && Matches(parse, reply.response.Visible(), expected)
  }

  /** At most 19 other frames, none of which the client can take for the response, and then the response. */
  predicate Answers(parse: Parser, reply: Reply, expected: int) {
    |reply.noise| < MAX_READS && WellBehaved(parse, reply, expected)
  }

  function Wire(reply: Reply): seq<Byte> {
    EncodeAll(reply.noise) + Encode(reply.response)
  }

  function WireAll(replies: seq<Reply>): seq<Byte> {
    if replies == [] then [] else WireAll(replies[..|replies| - 1]) + Wire(replies[|replies| - 1])
  }

  /** Waiting skips the other frames one read each and takes the response. */
  lemma {:induction false} AwaitSkipsNoise(parse: Parser, noise: seq<WireFrame>, response: WireFrame, rest: seq<Byte>,
                                           expected: int, tries: nat, used: nat)
    requires |noise| < tries
    requires forall f :: f in noise ==> f.Readable() && !Matches(parse, f.Visible(), expected)
    requires response.Readable() && Matches(parse, response.Visible(), expected)
    ensures Await(parse, EncodeAll(noise) + Encode(response) + rest, expected, tries, used)
         == (Answered(response.Visible(), used + |noise| + 1), rest)
    decreases |noise|
  {
    hide ReadSpec, Encode, Matches;
    if noise == [] {
      assert [] + Encode(response) + rest == Encode(response) + rest;
      ReadableFrameRoundTrip(response, rest);
    } else {
      var later := EncodeAll(noise[1..]) + Encode(response) + rest;
      assert EncodeAll(noise) + Encode(response) + rest == Encode(noise[0]) + later;
      ReadableFrameRoundTrip(noise[0], later);
      AwaitSkipsNoise(parse, noise[1..], response, rest, expected, tries - 1, used + 1);
    }
  }

  /** Reads spent on other frames only: none of them is kept. */
  lemma {:induction false} AwaitExhausted(parse: Parser, noise: seq<WireFrame>, rest: seq<Byte>, expected: int,
                                         used: nat)
    requires forall f :: f in noise ==> f.Readable() && !Matches(parse, f.Visible(), expected)
    ensures Await(parse, EncodeAll(noise) + rest, expected, |noise|, used) == (Unanswered(used + |noise|), rest)
    decreases |noise|
  {
    hide ReadSpec, Encode, Matches;
    if noise == [] {
      assert [] + rest == rest;
    } else {
      var later := EncodeAll(noise[1..]) + rest;
      assert EncodeAll(noise) + rest == Encode(noise[0]) + later;
      ReadableFrameRoundTrip(noise[0], later);
      AwaitExhausted(parse, noise[1..], rest, expected, used + 1);
    }
  }

  /** Reads spent on other frames leave the later frames unread. */
  lemma {:induction false} AwaitPastNoise(parse: Parser, noise: seq<WireFrame>, rest: seq<Byte>, expected: int,
                                          tries: nat, used: nat)
    requires |noise| >= tries
    requires forall f :: f in noise ==> f.Readable() && !Matches(parse, f.Visible(), expected)
    ensures Await(parse, EncodeAll(noise) + rest, expected, tries, used)
         == (Unanswered(used + tries), EncodeAll(noise[tries..]) + rest)
  {
    hide Await, Encode, Matches;
    EncodeAllSplit(noise, tries);
    assert EncodeAll(noise) + rest == EncodeAll(noise[..tries]) + (EncodeAll(noise[tries..]) + rest);
    AwaitExhausted(parse, noise[..tries], EncodeAll(noise[tries..]) + rest, expected, used);
  }

  lemma {:induction false} EncodeAllSplit(frames: seq<WireFrame>, n: nat)
    requires n <= |frames|
    ensures EncodeAll(frames) == EncodeAll(frames[..n]) + EncodeAll(frames[n..])
  {
    hide Encode;
    if n == 0 {
      assert frames[..0] == [] && frames[0..] == frames;
    } else {
      EncodeAllSplit(frames[1..], n - 1);
      assert frames[..n][1..] == frames[1..][..n - 1] && frames[n..] == frames[1..][n - 1..];
    }
  }

  /** The bound of 20 reads is exact.  A response behind m other frames is found if m < 20, in its own read; otherwise
      the command goes unanswered and the frames from the twentieth on stay on the stream for the next command. */
  lemma FoundWithinTwentyReads(parse: Parser, reply: Reply, rest: seq<Byte>, expected: int)
    requires forall f :: f in reply.noise ==> f.Readable() && !Matches(parse, f.Visible(), expected)
    requires |reply.noise| < MAX_READS ==>
               reply.response.Readable() && Matches(parse, reply.response.Visible(), expected)
    ensures var m := |reply.noise|;
            Await(parse, Wire(reply) + rest, expected, MAX_READS, 0)
            == if m < 20 then (Answered(reply.response.Visible(), m + 1), rest)
               else (Unanswered(20), EncodeAll(reply.noise[20..]) + Encode(reply.response) + rest)
  {
    hide Await, Encode, Matches;
    if |reply.noise| < MAX_READS {
      AwaitSkipsNoise(parse, reply.noise, reply.response, rest, expected, MAX_READS, 0);
    } else {
      var later := Encode(reply.response) + rest;
      AwaitPastNoise(parse, reply.noise, later, expected, MAX_READS, 0);
      assert Wire(reply) + rest == EncodeAll(reply.noise) + later;
      var kept := EncodeAll(reply.noise[MAX_READS..]);
      assert kept + later == kept + Encode(reply.response) + rest;
    }
  }

  function Expected(replies: seq<Reply>): (log: seq<Outcome>)
    ensures |log| == |replies|
  {
    seq(|replies|, i requires 0 <= i < |replies| =>
      Answered(replies[i].response.Visible(), |replies[i].noise| + 1))
  }

  lemma CommandAnswered(parse: Parser, reply: Reply, rest: seq<Byte>, expected: int)
    requires Answers(parse, reply, expected)
    ensures Await(parse, Wire(reply) + rest, expected, MAX_READS, 0)
         == (Answered(reply.response.Visible(), |reply.noise| + 1), rest)
  {
    hide Await, Encode, EncodeAll, Wire, Matches;
    FoundWithinTwentyReads(parse, reply, rest, expected);
  }

  /** If the server answers each command with at most 19 other frames before its response, every command is
      matched to its own response, and exactly the server's bytes are consumed. */
  lemma {:induction false} EveryCommandAnswered(parse: Parser, replies: seq<Reply>, ids: seq<int>, rest: seq<Byte>)
    requires |replies| == |ids|
    requires forall i :: 0 <= i < |ids| ==> Answers(parse, replies[i], ids[i])
    ensures AwaitAll(parse, WireAll(replies) + rest, ids) == (Expected(replies), rest)
  {
    hide Await, Encode, EncodeAll, Wire, Answers;
    if ids == [] {
      assert [] + rest == rest;
    } else {
      var n := |ids| - 1;
      var reply := replies[n];
      EveryCommandAnswered(parse, replies[..n], ids[..n], Wire(reply) + rest);
      assert WireAll(replies) + rest == WireAll(replies[..n]) + (Wire(reply) + rest);
      CommandAnswered(parse, reply, rest, ids[n]);
      assert Expected(replies) == Expected(replies[..n]) + [Expected(replies)[n]];
    }
  }

  predicate AllAnswered(log: seq<Outcome>) {
    forall i :: 0 <= i < |log| ==> log[i].Answered?
  }

  predicate FewOthers(replies: seq<Reply>) {
    forall i :: 0 <= i < |replies| ==> |replies[i].noise| < MAX_READS
  }

  lemma AwaitAllLast(parse: Parser, replies: seq<Reply>, ids: seq<int>, rest: seq<Byte>)
    requires |replies| == |ids| > 0
    ensures var n := |ids| - 1;
            var init := AwaitAll(parse, WireAll(replies[..n]) + (Wire(replies[n]) + rest), ids[..n]);
            AwaitAll(parse, WireAll(replies) + rest, ids).0
            == init.0 + [Await(parse, init.1, ids[n], MAX_READS, 0).0]
  {
    hide Await, Wire;
    var n := |ids| - 1;
    assert WireAll(replies) + rest == WireAll(replies[..n]) + (Wire(replies[n]) + rest);
  }

  /** Of a whole batch all commands are answered if and only if every response comes after fewer than 20 other
      frames. */
  lemma {:induction false} AllAnsweredExactly(parse: Parser, replies: seq<Reply>, ids: seq<int>, rest: seq<Byte>)
    requires |replies| == |ids|
    requires forall i :: 0 <= i < |ids| ==> WellBehaved(parse, replies[i], ids[i])
    ensures AllAnswered(AwaitAll(parse, WireAll(replies) + rest, ids).0) <==> FewOthers(replies)
  {
    hide Await, AwaitAll, Encode, EncodeAll, Wire, WireAll, Matches;
    if FewOthers(replies) {
      EveryCommandAnswered(parse, replies, ids, rest);
    } else {
      var n := |ids| - 1;
      var later := Wire(replies[n]) + rest;
      AwaitAllLast(parse, replies, ids, rest);
      AllAnsweredExactly(parse, replies[..n], ids[..n], later);
      var init := AwaitAll(parse, WireAll(replies[..n]) + later, ids[..n]);
      var last := Await(parse, init.1, ids[n], MAX_READS, 0).0;
      if FewOthers(replies[..n]) {
        EveryCommandAnswered(parse, replies[..n], ids[..n], later);
        FoundWithinTwentyReads(parse, replies[n], rest, ids[n]);
        assert (init.0 + [last])[n] == last;
      } else {
        PrefixAnswered(init.0, last);
      }
    }
  }

  lemma PrefixAnswered(log: seq<Outcome>, last: Outcome)
    ensures AllAnswered(log + [last]) ==> AllAnswered(log)
  {
    assert forall i :: 0 <= i < |log| ==> (log + [last])[i] == log[i];
  }

  /** The server answers the command: at most 19 readable frames that are empty or no reply to it, then one that is. */
  predicate AnswersOwn(parse: Parser, reply: Reply, command: seq<Byte>) {
    && |reply.noise| <= 19
    && (forall f :: f in reply.noise ==>
          f.Readable() && (f.Visible() == [] || !RepliesTo(parse(command), parse(f.Visible()))))
    && reply.response.Readable() && reply.response.Visible() != []
    && RepliesTo(parse(command), parse(reply.response.Visible()))
  }

  /** Commands that are each answered after at most 19 other frames get exactly the frames that reply to them. */
  lemma OwnResponsesFound(parse: Parser, commands: seq<seq<Byte>>, replies: seq<Reply>, rest: seq<Byte>)
    requires |commands| == |replies|
    requires forall i :: 0 <= i < |commands| ==> AnswersOwn(parse, replies[i], commands[i])
    ensures var (log, left) := AwaitAll(parse, WireAll(replies) + rest, CommandIds(parse, commands));
            && left == rest && |log| == |commands|
            && forall i :: 0 <= i < |commands| ==>
                 log[i] == Answered(replies[i].response.Visible(), |replies[i].noise| + 1)
  {
    hide AwaitAll, WireAll;
    var ids := CommandIds(parse, commands);
    forall i | 0 <= i < |ids|
      ensures Answers(parse, replies[i], ids[i])
    {
      assert AnswersOwn(parse, replies[i], commands[i]);
    }
    EveryCommandAnswered(parse, replies, ids, rest);
  }

  lemma {:induction false} AwaitUses(parse: Parser, s: seq<Byte>, expected: int, tries: nat, used: nat)
    ensures var entry := Await(parse, s, expected, tries, used).0; entry.Answered? ==> entry.used > used
    decreases tries
  {
    hide ReadSpec, Matches;
    if tries > 0 {
      AwaitUses(parse, ReadSpec(s).rest, expected, tries - 1, used + 1);
    }
  }

  /** An event, which has no id, is taken for the response exactly by a command without an id or with id -1. */
  lemma EventTakenExactly(parse: Parser, command: seq<Byte>, event: WireFrame, rest: seq<Byte>)
    requires event.Readable() && event.Visible() != [] && parse(event.Visible()) == Dict(None)
    ensures Await(parse, Encode(event) + rest, CommandIds(parse, [command])[0], MAX_READS, 0)
            == (Answered(event.Visible(), 1), rest)
            <==> parse(command) in {Malformed, Dict(None), Dict(Some(-1))}
  {
    hide Encode, ReadSpec;
    var expected := IdOf(parse(command));
    if Matches(parse, event.Visible(), expected) {
      FoundWithinTwentyReads(parse, Reply([], event), rest, expected);
      assert EncodeAll([]) + Encode(event) == Encode(event);
    } else {
      ReadableFrameRoundTrip(event, rest);
      assert Await(parse, Encode(event) + rest, expected, MAX_READS, 0)
          == Await(parse, rest, expected, MAX_READS - 1, 1);
      AwaitUses(parse, rest, expected, MAX_READS - 1, 1);
    }
  }
}
