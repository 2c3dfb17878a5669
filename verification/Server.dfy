/**
 * One served connection: an answer for each request line, written in the order of the lines however late it is
 * ready.
 */
module ServedConnections {
  import opened Options

  datatype Message =
    | StoppingError
    | LineTooLong
    | InvalidJson(reason: string)
    | HelloRequired
    | HelloAnswer
    | VersionMismatch
    | StopAcknowledgement
    | Answered(text: string)

  /** A request line as it was parsed; a query's answer is there at once, or comes late. */
  datatype Request =
    | OverLong
    | Unparsed(reason: string)
    | Stop
    | Hello(sameVersion: bool)
    | Query(now: Option<Message>)

  datatype ConnectionState = AwaitingHello | Ready | Mismatched

  /** The turn of one request line, `late` when its answer is still worked on. */
  datatype Turn = Turn(line: nat, message: Option<Message>, late: bool)

  const MAX_UNANSWERED_REQUESTS: nat := 8

  ghost function Pending(turns: seq<Turn>): set<nat> {
    set t | t in turns && t.message.None? :: t.line
  }

  ghost predicate Extends(before: map<nat, Message>, after: map<nat, Message>) {
    forall k :: k in before ==> k in after && after[k] == before[k]
  }

  /** The turns from `next` on are the last lines in order, each with the answer decided for its line. */
  ghost predicate TurnsStand(turns: seq<Turn>, next: int, answers: map<nat, Message>, aborted: set<nat>) {
    && 0 <= next
    && forall i :: 0 <= i < |turns| ==>
         && turns[i].line == next + i && turns[i].message == Get(answers, turns[i].line)
         && (turns[i].message.None? ==> turns[i].late && turns[i].line !in aborted)
  }

  /** What was written is a prefix of the answers, in the order of their lines. */
  ghost predicate WrittenInOrder(written: seq<Message>, answers: map<nat, Message>) {
    forall k :: 0 <= k < |written| ==> k in answers && written[k] == answers[k]
  }

  ghost predicate AnsweredUpTo(answers: map<nat, Message>, n: int) {
    forall k :: 0 <= k < n ==> k in answers
  }

  ghost predicate LinesBelow(answers: map<nat, Message>, aborted: set<nat>, lines: nat) {
    (forall k :: k in answers ==> k < lines) && forall l :: l in aborted ==> l < lines
  }

  /** The first turn, once it is answered, may be served. */
  lemma ServesFirst(
      turns: seq<Turn>, next: int, answers: map<nat, Message>, aborted: set<nat>, written: seq<Message>)
    requires TurnsStand(turns, next, answers, aborted) && turns != [] && turns[0].message.Some?
    requires AnsweredUpTo(answers, next) && WrittenInOrder(written, answers)
    ensures TurnsStand(turns[1..], next + 1, answers, aborted) && AnsweredUpTo(answers, next + 1)
    ensures |written| == next ==> WrittenInOrder(written + [turns[0].message.value], answers)
  {
    assert turns[0].line == next;
    assert forall i :: 0 <= i < |turns| - 1 ==> turns[1..][i] == turns[i + 1];
  }

  lemma AddsTurn(
      turns: seq<Turn>, lines: nat, answers: map<nat, Message>, aborted: set<nat>, written: seq<Message>,
      message: Option<Message>)
    requires TurnsStand(turns, lines - |turns|, answers, aborted) && LinesBelow(answers, aborted, lines)
    requires AnsweredUpTo(answers, lines - |turns|) && WrittenInOrder(written, answers)
    ensures var now := if message.Some? then answers[lines := message.value] else answers;
            && TurnsStand(turns + [Turn(lines, message, message.None?)], lines - |turns|, now, aborted)
            && LinesBelow(now, aborted, lines + 1) && AnsweredUpTo(now, lines - |turns|) && WrittenInOrder(written, now)
            && Extends(answers, now) && Get(now, lines) == message
  {
  }

  /** One pending turn is answered, its work aborted or not. */
  lemma AnswersTurn(
      turns: seq<Turn>, lines: nat, answers: map<nat, Message>, aborted: set<nat>, written: seq<Message>, i: nat,
      message: Message, abort: bool)
    requires TurnsStand(turns, lines - |turns|, answers, aborted) && LinesBelow(answers, aborted, lines)
    requires AnsweredUpTo(answers, lines - |turns|) && WrittenInOrder(written, answers)
    requires i < |turns| && turns[i].message.None?
    ensures var line := turns[i].line;
            var now, gone := answers[line := message], if abort then aborted + {line} else aborted;
            && line !in answers
            && TurnsStand(turns[i := turns[i].(message := Some(message))], lines - |turns|, now, gone)
            && LinesBelow(now, gone, lines) && AnsweredUpTo(now, lines - |turns|) && WrittenInOrder(written, now)
            && Extends(answers, now)
  {
  }

  lemma PendingUnanswered(turns: seq<Turn>, next: int, answers: map<nat, Message>, aborted: set<nat>)
    requires TurnsStand(turns, next, answers, aborted)
    ensures forall k :: k in Pending(turns) ==> k !in answers
  {
  }

  class ServedConnection {
    var state: ConnectionState
    var writable: bool
    var turns: seq<Turn>
    var ending: bool
    var dropped: bool
    /** The daemon's stop has begun. */
    var stopping: bool
    var written: seq<Message>
    /** The lines whose late work was told that nobody waits for it. */
    var aborted: set<nat>
    /** How many lines were given a turn; a turn is told apart by its line. */
    var lines: nat
    /** The one answer decided for each line. */
    ghost var answers: map<nat, Message>

    /** The first line not served yet. */
    ghost function Next(): int
      reads this`lines, this`turns
    {
      lines - |turns|
    }

    /** Each line has its turn or was served, and what was written is all that was served while the socket took it. */
    ghost predicate Keeps()
      reads this
    {
      && TurnsStand(turns, Next(), answers, aborted) && LinesBelow(answers, aborted, lines)
      && WrittenInOrder(written, answers)
      && (!dropped ==> AnsweredUpTo(answers, Next()))
      && |written| <= Next() && (writable ==> |written| == Next() && !dropped)
      && (dropped ==> turns == [])
    }

    /** Between events the next turn is pending, the bound is kept, and a stop leaves nothing pending. */
    ghost predicate Valid()
      reads this
    {
      && Keeps()
      && (turns != [] ==> turns[0].message.None?)
      && |turns| <= MAX_UNANSWERED_REQUESTS
      && (stopping ==> turns == [])
      && (ending && turns == [] ==> !writable)
    }

    constructor ()
      ensures Valid() && state == AwaitingHello && writable && !ending && !dropped && !stopping
      ensures written == [] && lines == 0 && answers == map[]
    {
      state, writable, turns, ending, dropped, stopping := AwaitingHello, true, [], false, false, false;
      written, aborted, lines, answers := [], {}, 0, map[];
    }

    /** Whether a line arriving now is answered. */
    predicate Answering()
      reads this
    {
      writable && !ending
    }

    /** Writes each answer whose turn has come; ends the connection once it is to end and nothing is left. */
    method Flush()
      requires Keeps()
      modifies this`turns, this`written, this`writable
      ensures Keeps() && (turns != [] ==> turns[0].message.None?)
      ensures |turns| <= |old(turns)| && turns == old(turns)[|old(turns)| - |turns|..]
      ensures forall i :: 0 <= i < |old(turns)| - |turns| ==> old(turns)[i].message.Some?
      ensures |old(written)| <= |written| && written[..|old(written)|] == old(written)
      ensures writable == (old(writable) && !(ending && turns == []))
      ensures old(writable) ==> |written| == Next()
      ensures |turns| == |old(turns)| ==> turns == old(turns) && written == old(written)
    {
      hide TurnsStand, LinesBelow, WrittenInOrder, AnsweredUpTo;
      var i := 0;
      while |turns| > 0 && turns[0].message.Some?
        invariant Keeps() && i + |turns| == |old(turns)| && turns == old(turns)[i..]
        invariant forall k :: 0 <= k < i ==> old(turns)[k].message.Some?
        invariant |old(written)| <= |written| && written[..|old(written)|] == old(written)
        invariant writable == old(writable) && (writable ==> |written| == Next())
        invariant i == 0 ==> written == old(written)
        decreases |turns|
      {
        var first := turns[0];
        ServesFirst(turns, Next(), answers, aborted, written);
        assert turns[1..] == old(turns)[i + 1..] && first == old(turns)[i];
        turns := turns[1..];
        if writable { written := written + [first.message.value]; }
        i := i + 1;
      }
      if ending && |turns| == 0 && writable { writable := false; }
    }

    /** Aborts the work of each request still pending and writes nothing more. */
    method Drop()
      requires Keeps()
      modifies this`dropped, this`turns, this`writable, this`aborted
      ensures Keeps() && dropped && !writable && turns == [] && aborted == old(aborted) + Pending(old(turns))
    {
      hide LinesBelow, WrittenInOrder, AnsweredUpTo;
      DropsAll(turns, lines, answers, aborted);
      dropped, writable := true, false;
      aborted := aborted + set t | t in turns && t.message.None? :: t.line;
      turns := [];
    }

    /** The answer of a new turn is written at once when none before it is pending. */
    method Queue(message: Option<Message>)
      requires Valid() && !dropped && (message.None? ==> !stopping)
      modifies this
      ensures Valid() && state == old(state) && stopping == old(stopping) && ending == old(ending)
      ensures lines == old(lines) + 1
      ensures Extends(old(answers), answers) && Get(answers, old(lines)) == message
      ensures forall k :: k in answers && k != old(lines) ==> k in old(answers)
      ensures old(written) <= written
      ensures old(turns) == [] && message.Some? && old(writable) ==>
                turns == [] && !dropped && written == old(written) + [message.value] && writable == !ending
      ensures dropped <==> |old(turns)| == MAX_UNANSWERED_REQUESTS
      ensures old(aborted) <= aborted && (dropped ==> !writable && Pending(old(turns)) <= aborted)
    {
      hide TurnsStand, LinesBelow, WrittenInOrder, AnsweredUpTo, Pending;
      MorePending(turns, Turn(lines, message, message.None?));
      Add(message);
      ghost var added := turns;
      assert added[0].message == if |old(turns)| > 0 then None else message;
      Flush();
      assert |turns| < |added| ==> added[0].message.Some?;
      LastWritten(written, answers);
      if |turns| > MAX_UNANSWERED_REQUESTS {
        Drop();
      }
    }

    method Add(message: Option<Message>)
      requires Keeps() && !dropped
      modifies this`turns, this`lines, this`answers
      ensures Keeps() && turns == old(turns) + [Turn(old(lines), message, message.None?)] && lines == old(lines) + 1
      ensures Extends(old(answers), answers) && Get(answers, old(lines)) == message
      ensures forall k :: k in answers && k != old(lines) ==> k in old(answers)
    {
      hide TurnsStand, LinesBelow, WrittenInOrder, AnsweredUpTo;
      AddsTurn(turns, lines, answers, aborted, written, message);
      turns := turns + [Turn(lines, message, message.None?)];
      if message.Some? { answers := answers[lines := message.value]; }
      lines := lines + 1;
    }

    /** A late answer is dropped once its line was answered otherwise or the connection was dropped. */
    method Settle(line: nat, message: Message)
      requires Valid()
      modifies this`turns, this`written, this`writable, this`answers
      ensures Valid() && old(written) <= written
      ensures answers == if line in Pending(old(turns)) then old(answers)[line := message] else old(answers)
      ensures line !in Pending(old(turns)) ==> turns == old(turns) && written == old(written)
    {
      hide TurnsStand, LinesBelow, WrittenInOrder, AnsweredUpTo, Pending;
      var i := PendingAt(line);
      if i == |turns| { return; }
      AnswersTurn(turns, lines, answers, aborted, written, i, message, false);
      turns := turns[i := turns[i].(message := Some(message))];
      answers := answers[line := message];
      Flush();
    }

    method PendingAt(line: nat) returns (i: nat)
      ensures i <= |turns|
      ensures if i < |turns| then turns[i].line == line && turns[i].message.None? && line in Pending(turns)
              else line !in Pending(turns)
    {
      i := 0;
      while i < |turns| && !(turns[i].line == line && turns[i].message.None?)
        invariant 0 <= i <= |turns|
        invariant forall k :: 0 <= k < i ==> !(turns[k].line == line && turns[k].message.None?)
      {
        i := i + 1;
      }
      if i == |turns| {
        NonePending(turns, line);
      } else {
        assert turns[i] in turns;
      }
    }

    /** The stop begins: each pending request is answered with the stopping error, and its work aborted. */
    method BeginStop()
      requires Valid()
      modifies this`turns, this`written, this`writable, this`answers, this`aborted, this`stopping
      ensures Valid() && stopping && turns == [] && old(written) <= written
      ensures forall k :: k in answers <==> k in old(answers) || k in Pending(old(turns))
      ensures forall k :: k in answers ==> answers[k] == if k in old(answers) then old(answers)[k] else StoppingError
      ensures aborted == old(aborted) + Pending(old(turns))
      ensures old(writable) && !ending ==> writable && |written| == lines
    {
      hide TurnsStand, LinesBelow, WrittenInOrder, AnsweredUpTo, Pending;
      stopping := true;
      AnswerPending();
      ghost var asked := turns;
      Flush();
      AllServed(asked, turns);
    }

    method AnswerPending()
      requires Keeps()
      modifies this`turns, this`answers, this`aborted
      ensures Keeps() && |turns| == |old(turns)|
      ensures forall t :: t in turns ==> t.message.Some?
      ensures forall k :: k in answers <==> k in old(answers) || k in Pending(old(turns))
      ensures forall k :: k in answers ==> answers[k] == if k in old(answers) then old(answers)[k] else StoppingError
      ensures aborted == old(aborted) + Pending(old(turns))
    {
      hide TurnsStand, LinesBelow, WrittenInOrder, AnsweredUpTo, Pending;
      NoPending();
      for i := 0 to |turns|
        invariant Keeps() && |turns| == |old(turns)| && turns[i..] == old(turns)[i..]
        invariant forall k :: 0 <= k < i ==> turns[k].message.Some?
        invariant forall k :: k in answers <==> k in old(answers) || k in Pending(old(turns)[..i])
        invariant forall k :: k in answers ==> answers[k] == if k in old(answers) then old(answers)[k] else StoppingError
        invariant aborted == old(aborted) + Pending(old(turns)[..i])
      {
        var turn := turns[i];
        PendingNext(old(turns), i);
        assert turn == turns[i..][0] && turn == old(turns)[i];
        assert turns[i..][1..] == turns[i + 1..] && old(turns)[i..][1..] == old(turns)[i + 1..];
        if turn.message.None? {
          AnswersTurn(turns, lines, answers, aborted, written, i, StoppingError, true);
          turns := turns[i := turn.(message := Some(StoppingError))];
          answers := answers[turn.line := StoppingError];
          aborted := aborted + {turn.line};
        }
      }
      assert old(turns)[..|turns|] == old(turns);
      assert forall k :: 0 <= k < |turns| ==> turns[k].message.Some?;
    }

    /** Ends the connection once every earlier request's answer is written. */
    method EndOnceAnswered()
      requires Valid()
      modifies this`turns, this`written, this`writable, this`ending
      ensures Valid() && ending && turns == old(turns) && written == old(written)
      ensures writable == (old(writable) && turns != [])
    {
      hide TurnsStand, LinesBelow, WrittenInOrder, AnsweredUpTo;
      ending := true;
      Flush();
    }

    /** The socket is gone, closed by either side. */
    method SocketClosed()
      requires Valid()
      modifies this`dropped, this`turns, this`writable, this`aborted
      ensures Valid() && dropped && turns == [] && aborted == old(aborted) + Pending(old(turns))
    {
      Drop();
    }

    /**
     * Answers one line, on a connection that answers: a stop first, then by what the connection was told. A query's
     * answer is there at once when the daemon is stopping.
     */
    method Answer(request: Request)
      requires Valid() && Answering()
      requires request.Query? && request.now.None? ==> !stopping
      modifies this
      ensures Valid() && old(written) <= written && Extends(old(answers), answers)
      ensures request.Stop? ==>
                && stopping && turns == [] && writable && lines == old(lines) + 1 && |written| == lines
                && written[lines - 1] == StopAcknowledgement
                && forall k :: k in Pending(old(turns)) ==> answers[k] == StoppingError && k in aborted
      ensures !request.Stop? && old(state) == Mismatched ==>
                state == Mismatched && lines == old(lines) && answers == old(answers) && ending
      ensures !request.Stop? && old(state) != Mismatched ==>
                && lines == old(lines) + 1
                && Get(answers, old(lines)) == AnswerOf(request, old(state)) && state == StateAfter(request, old(state))
    {
      hide TurnsStand, LinesBelow, WrittenInOrder, AnsweredUpTo, Pending;
      PendingUnanswered(turns, Next(), answers, aborted);
      match request
      case Stop =>
        BeginStop();
        Queue(Some(StopAcknowledgement));
      case _ =>
        if state == Mismatched {
          EndOnceAnswered();
          return;
        }
        var answer := AnswerOf(request, state);
        var next := StateAfter(request, state);
        Queue(answer);
        state := next;
    }
  }

  /** The answer there is at once to a line other than a stop, on a connection that was not told of a mismatch. */
  function AnswerOf(request: Request, state: ConnectionState): Option<Message> {
    match request
    case OverLong => Some(LineTooLong)
    case Unparsed(reason) => Some(InvalidJson(reason))
    case Stop => Some(StopAcknowledgement)
    case Hello(same) => Some(if same then HelloAnswer else VersionMismatch)
    case Query(now) => if state == AwaitingHello then Some(HelloRequired) else now
  }

  function StateAfter(request: Request, state: ConnectionState): ConnectionState {
    if request.Hello? then (if request.sameVersion then Ready else Mismatched) else state
  }

  lemma DropsAll(turns: seq<Turn>, lines: nat, answers: map<nat, Message>, aborted: set<nat>)
    requires TurnsStand(turns, lines - |turns|, answers, aborted) && LinesBelow(answers, aborted, lines)
    ensures TurnsStand([], lines, answers, aborted + Pending(turns))
    ensures LinesBelow(answers, aborted + Pending(turns), lines)
  {
  }

  lemma LastWritten(written: seq<Message>, answers: map<nat, Message>)
    requires WrittenInOrder(written, answers)
    ensures written != [] ==> |written| - 1 in answers && written[|written| - 1] == answers[|written| - 1]
  {
  }

  lemma MorePending(turns: seq<Turn>, turn: Turn)
    ensures Pending(turns) <= Pending(turns + [turn])
  {
  }

  lemma NonePending(turns: seq<Turn>, line: nat)
    requires forall k :: 0 <= k < |turns| ==> !(turns[k].line == line && turns[k].message.None?)
    ensures line !in Pending(turns)
  {
  }

  lemma NoPending()
    ensures Pending([]) == {}
  {
  }

  lemma AllServed(before: seq<Turn>, after: seq<Turn>)
    requires forall t :: t in before ==> t.message.Some?
    requires |after| <= |before| && after == before[|before| - |after|..] && (after != [] ==> after[0].message.None?)
    ensures after == []
  {
  }

  lemma PendingNext(turns: seq<Turn>, i: nat)
    requires i < |turns|
    ensures Pending(turns[..i + 1]) ==
            Pending(turns[..i]) + if turns[i].message.None? then {turns[i].line} else {}
  {
    assert turns[..i + 1] == turns[..i] + [turns[i]];
  }

  /** The lines of one chunk, answered until the connection answers no more. */
  method Serve(connection: ServedConnection, requests: seq<Request>)
    requires connection.Valid()
    requires forall r :: r in requests ==> r.Query? ==> r.now.Some?
    modifies connection
    ensures connection.Valid() && old(connection.written) <= connection.written
    ensures connection.lines <= old(connection.lines) + |requests|
  {
    for i := 0 to |requests|
      invariant connection.Valid() && old(connection.written) <= connection.written
      invariant connection.lines <= old(connection.lines) + i
    {
      if !connection.Answering() { return; }
      connection.Answer(requests[i]);
    }
  }
}
