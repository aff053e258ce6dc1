/** The retrying Valkey client (internal/cache/valkey.go): every operation runs on a fresh
    connection, and is run again when an attempt fails with a retryable network error. A run is
    fixed by the fate of each attempt; the theorems hold for every choice of fates. */
module Valkey {
  import opened Options
  import opened Decimal
  import opened Resp

  type Store = map<Bytes, Bytes>

  /** A Go `time.Duration`: nanoseconds in 64 bits. */
  type Duration = d: int | MIN_INT64 <= d <= MAX_INT64

  datatype Command =
    | Get(key: Bytes)
    | Set(key: Bytes, value: Bytes, ttl: Duration)
    | SetNX(key: Bytes, value: Bytes, ttl: Duration)
    | Del(key: Bytes)

  datatype Error =
    | Net(timeout: bool, temporary: bool)
    | Other
    | ContextDone
    | CacheMiss
    | Reading(reason: ReadError)
    | Unexpected(reply: Reply)
    | Panic

  /** An error of the network, as opposed to one the client makes from a reply. */
  type LinkError = e: Error | e.Net? || e.Other? witness Other

  datatype Value = Payload(data: Bytes) | Stored(created: bool) | Done

  datatype Result = Ok(value: Value) | Err(error: Error)

  /** What befalls one attempt. `Answered` means the server executed the command; the client then
      receives only the first `received` bytes of the reply, cut into chunks, before `error`. */
  datatype Fate =
    | Cancelled
    | DialFails(error: LinkError)
    | BootstrapFails(error: LinkError)
    | CommandLost(error: LinkError)
    | Answered(received: nat, cuts: seq<nat>, error: LinkError)

  predicate ShouldRetry(error: Error) {
    error.Net? && (error.timeout || error.temporary)
  }

  // ---------------------------------------------------------------- the wire form of a command

  lemma {:induction false} DigitsLength(n: nat)
    ensures |NatDigits(n)| <= n + 1
  {
    if n >= 10 {
      DigitsLength(n / 10);
    }
  }

  function TtlParts(ttl: Duration): seq<Bytes> {
    if ttl > 0 then
      var ms := ttl / 1_000_000;
      DigitsLength(ms);
      ["PX", Itoa(ms)]
    else []
  }

  function CommandParts(command: Command): seq<Bytes> {
    match command
    case Get(key) => ["GET", key]
    case Set(key, value, ttl) => ["SET", key, value] + TtlParts(ttl)
    case SetNX(key, value, ttl) => ["SET", key, value] + TtlParts(ttl) + ["NX"]
    case Del(key) => ["DEL", key]
  }

  // ---------------------------------------------------------------- the server

  const OK: Reply := Simple("OK")
  const SYNTAX_ERROR: string := "ERR syntax error"

  /** Whether SET options ask for NX; an expiry must be a positive number of milliseconds. */
  function SetOptions(options: seq<Bytes>): Option<bool> {
    if options == [] then Some(false)
    else if options == ["NX"] then Some(true)
    else if |options| >= 2 && options[0] == "PX" then
      var ms := Atoi(options[1]);
      if ms.Some? && ms.value > 0 then SetOptions(options[2..]) else None
    else None
  }

  /** The reply frame and the new store. Keys do not expire in this model. */
  function Execute(parts: seq<Bytes>, store: Store): (string, Store) {
    if |parts| == 2 && parts[0] == "GET" then
      (ReplyFrame(if parts[1] in store then Bulk(store[parts[1]]) else Nil), store)
    else if |parts| == 2 && parts[0] == "DEL" then
      (ReplyFrame(Integer(if parts[1] in store then "1" else "0")), store - {parts[1]})
    else if |parts| >= 3 && parts[0] == "SET" then
      var nx := SetOptions(parts[3..]);
      if nx.None? then (ErrorFrame(SYNTAX_ERROR), store)
      else if nx.value && parts[1] in store then (ReplyFrame(Nil), store)
      else (ReplyFrame(OK), store[parts[1] := parts[2]])
    else
      (ErrorFrame(SYNTAX_ERROR), store)
  }

  class ValkeyServer {
    var store: Store

    method Serve(request: string) returns (response: string)
      modifies this
      ensures var command := ParseCommand(request);
              if command.None? then response == ErrorFrame(SYNTAX_ERROR) && store == old(store)
              else (response, store) == Execute(command.value.0, old(store))
    {
      var command := ParseCommand(request);
      if command.None? {
        return ErrorFrame(SYNTAX_ERROR);
      }
      var (frame, after) := Execute(command.value.0, store);
      response, store := frame, after;
    }
  }

  // ---------------------------------------------------------------- one attempt, without bytes

  /** A positive TTL below one millisecond is sent as `PX 0`, which the server refuses. */
  predicate IsRefused(command: Command) {
    (command.Set? || command.SetNX?) && 0 < command.ttl < 1_000_000
  }

  function Effect(command: Command, store: Store): Store {
    match command
    case Get(_) => store
    case Set(key, value, _) => if IsRefused(command) then store else store[key := value]
    case SetNX(key, value, _) => if IsRefused(command) || key in store then store else store[key := value]
    case Del(key) => store - {key}
  }

  function Answer(command: Command, store: Store): Result {
    if IsRefused(command) then Err(Reading(ServerError(SYNTAX_ERROR))) else
      match command
      case Get(key) => if key in store then Ok(Payload(store[key])) else Err(CacheMiss)
      case Set(_, _, _) => Ok(Done)
      case SetNX(key, _, _) => Ok(Stored(key !in store))
      case Del(_) => Ok(Done)
  }

  function Response(command: Command, store: Store): string {
    Execute(CommandParts(command), store).0
  }

  /** The command reached the server and ran there. */
  predicate Executed(fate: Fate) {
    fate.Answered?
  }

  /** The whole reply came back. */
  predicate Delivered(command: Command, fate: Fate, store: Store) {
    fate.Answered? && fate.received >= |Response(command, store)|
  }

  function StoreAfterOne(command: Command, fate: Fate, store: Store): Store {
    if Executed(fate) then Effect(command, store) else store
  }

  function AttemptResult(command: Command, fate: Fate, store: Store): Result {
    if fate.Cancelled? then Err(ContextDone)
    else if Delivered(command, fate, store) then Answer(command, store)
    else Err(fate.error)
  }

  // ---------------------------------------------------------------- one attempt, on the wire

  /** How each operation's closure reads its reply. A stream that ends is the link's own error. */
  function Interpret(command: Command, outcome: ReadOutcome, atEnd: Error): Result {
    match outcome
    case Panicked => Err(Panic)
    case Failed(error) => Err(if error.EndOfStream? then atEnd else Reading(error))
    case Received(reply) =>
      match command
      case Get(_) =>
        if reply.Nil? then Err(CacheMiss)
        else if reply.Bulk? then Ok(Payload(reply.payload))
        else Err(Unexpected(reply))
      case Set(_, _, _) => if reply == OK then Ok(Done) else Err(Unexpected(reply))
      case SetNX(_, _, _) =>
        if reply.Simple? then Ok(Stored(true))
        else if reply.Nil? then Ok(Stored(false))
        else Err(Unexpected(reply))
      case Del(_) => Ok(Done)
  }

  /** Which replies an operation takes for success, whatever server sends them: Get a bulk string, Set
      exactly "+OK", SetNX any simple string or nil, Del anything that is a reply. */
  lemma AcceptedReplies(command: Command, outcome: ReadOutcome, atEnd: Error)
    requires !atEnd.CacheMiss?
    ensures var result := Interpret(command, outcome, atEnd);
            && (result.Ok? ==> outcome.Received?)
            && (outcome.Received? ==>
                  var reply := outcome.reply;
                  match command
                  case Get(_) =>
                    && (result.Ok? <==> exists data :: reply == Bulk(data) && result.value == Payload(data))
                    && (result == Err(CacheMiss) <==> reply == Nil)
                  case Set(_, _, _) => result.Ok? <==> reply == Simple("OK")
                  case SetNX(_, _, _) =>
                    && (result == Ok(Stored(true)) <==> exists text :: reply == Simple(text))
                    && (result == Ok(Stored(false)) <==> reply == Nil)
                    && (result.Ok? ==> result.value.Stored?)
                  case Del(_) => result.Ok?)
  {
  }

  /** The stream cut into chunks of the given sizes, the remainder last. */
  function Chunks(stream: string, cuts: seq<nat>): (chunks: seq<string>)
    ensures Flatten(chunks) == stream
  {
    if cuts == [] || cuts[0] > |stream| then
      assert Flatten([stream]) == stream + Flatten([]) == stream;
      [stream]
    else
      var rest := Chunks(stream[cuts[0]..], cuts[1..]);
      assert ([stream[..cuts[0]]] + rest)[1..] == rest;
      [stream[..cuts[0]]] + rest
  }

  lemma OptionsOf(command: Command)
    requires command.Set? || command.SetNX?
    ensures SetOptions(CommandParts(command)[3..]) ==
            if IsRefused(command) then None else Some(command.SetNX?)
  {
    var options := CommandParts(command)[3..];
    if command.ttl > 0 {
      var ms := command.ttl / 1_000_000;
      AtoiItoa(ms);
      assert options[0] == "PX" && options[1] == Itoa(ms);
      assert options[2..] == if command.SetNX? then ["NX"] else [];
    } else {
      assert options == if command.SetNX? then ["NX"] else [];
    }
  }

  /** The server reads the expiry as the whole milliseconds of the time to live. */
  lemma ExpiryIsSentInMilliseconds(command: Command, rest: string)
    requires (command.Set? || command.SetNX?) && command.ttl > 0
    ensures var request := ParseCommand(CommandFrame(CommandParts(command)) + rest);
            && request.Some? && request.value.1 == rest
            && var parts := request.value.0;
               |parts| >= 5 && parts[3] == "PX" &&
               var ms := Atoi(parts[4]);
               ms.Some? && 0 <= command.ttl - ms.value * 1_000_000 < 1_000_000
  {
    hide ParseCommand, CommandFrame, Itoa, Atoi;
    CommandRoundTrip(CommandParts(command), rest);
    AtoiItoa(command.ttl / 1_000_000);
  }

  lemma ExecuteEffect(command: Command, store: Store)
    ensures Execute(CommandParts(command), store).1 == Effect(command, store)
  {
    if command.Set? || command.SetNX? {
      OptionsOf(command);
    }
  }

  function AnswerReply(command: Command, store: Store): Reply {
    match command
    case Get(key) => if key in store then Bulk(store[key]) else Nil
    case Set(_, _, _) => OK
    case SetNX(key, _, _) => if key in store then Nil else OK
    case Del(key) => Integer(if key in store then "1" else "0")
  }

  lemma AnswerFrame(command: Command, store: Store)
    requires !IsRefused(command)
    ensures Response(command, store) == ReplyFrame(AnswerReply(command, store))
    ensures IsSendable(AnswerReply(command, store))
  {
    if command.Set? || command.SetNX? {
      OptionsOf(command);
    }
  }

  lemma InterpretAnswer(command: Command, store: Store, atEnd: Error)
    requires !IsRefused(command)
    ensures Interpret(command, Received(AnswerReply(command, store)), atEnd) == Answer(command, store)
  {
  }

  /** What the client makes of a reply of which it hears only the first bytes. */
  function Heard(command: Command, store: Store, received: nat, atEnd: Error): Result {
    var response := Response(command, store);
    var heard := if received < |response| then response[..received] else response;
    Interpret(command, ParseReply(heard).outcome, atEnd)
  }

  lemma WireRefusal(command: Command, store: Store, received: nat, atEnd: Error)
    requires IsRefused(command)
    ensures Heard(command, store, received, atEnd)
            == if received < |Response(command, store)| then Err(atEnd) else Answer(command, store)
  {
    OptionsOf(command);
    var response := Response(command, store);
    ErrorRoundTrip(SYNTAX_ERROR, "");
    assert response + "" == response;
    if received < |response| {
      LineReplyCut('-', SYNTAX_ERROR, received);
    }
  }

  /** Through encoder, server, chunked reply and reader, the client learns exactly the abstract
      answer when the reply arrives in full, and the link's error when any byte of it is missing. */
  lemma WireAttempt(command: Command, store: Store, received: nat, atEnd: Error)
    ensures Heard(command, store, received, atEnd)
            == if received < |Response(command, store)| then Err(atEnd) else Answer(command, store)
  {
    if IsRefused(command) {
      WireRefusal(command, store, received, atEnd);
    } else {
      var reply := AnswerReply(command, store);
      var frame := ReplyFrame(reply);
      AnswerFrame(command, store);
      InterpretAnswer(command, store, atEnd);
      if received < |frame| {
        CutReplyIsNoReply(reply, received);
      } else {
        ReplyRoundTrip(reply, "");
        assert frame + "" == frame;
      }
    }
  }

  // ---------------------------------------------------------------- whole runs

  function Pow2(n: nat): nat {
    if n == 0 then 1 else 2 * Pow2(n - 1)
  }

  /** 64-bit two's complement wrap-around. */
  function Wrap64(n: int): Duration {
    (n + 0x8000_0000_0000_0000) % 0x1_0000_0000_0000_0000 - 0x8000_0000_0000_0000
  }

  const BASE_BACKOFF: Duration := 25_000_000

  function Backoff(attempt: nat): Duration {
    Wrap64(Wrap64(Pow2(attempt)) * BASE_BACKOFF)
  }

  /** How long `time.Sleep` sleeps: not at all when the duration is negative. */
  function Sleeps(d: Duration): nat {
    if d < 0 then 0 else d
  }

  function StoreAfter(command: Command, fates: nat -> Fate, attempts: nat, store: Store): Store {
    if attempts == 0 then store
    else StoreAfterOne(command, fates(attempts - 1), StoreAfter(command, fates, attempts - 1, store))
  }

  /** The outcome of attempt number `attempt`, on the store the earlier ones left. */
  function ResultOf(command: Command, fates: nat -> Fate, attempt: nat, store: Store): Result {
    AttemptResult(command, fates(attempt), StoreAfter(command, fates, attempt, store))
  }

  function SleptAfter(attempts: nat): nat {
    if attempts <= 1 then 0 else SleptAfter(attempts - 1) + Sleeps(Backoff(attempts - 2))
  }

  /** How many of the first attempts got a connection. */
  function DialledAfter(fates: nat -> Fate, attempts: nat): nat {
    if attempts == 0 then 0
    else
      var fate := fates(attempts - 1);
      DialledAfter(fates, attempts - 1) + if fate.Cancelled? || fate.DialFails? then 0 else 1
  }

  /** Attempt `attempt` fails in a way that makes the client try again. A cancelled context is
      reported at once, whatever its error would say about retrying. */
  predicate TriesAgain(command: Command, fates: nat -> Fate, attempt: nat, store: Store) {
    var result := ResultOf(command, fates, attempt, store);
    !fates(attempt).Cancelled? && result.Err? && ShouldRetry(result.error)
  }

  /** `attempts` is the number of attempts of a whole run: all but the last made the client try
      again, and the last did not, or was the last one allowed. */
  ghost predicate IsRun(command: Command, fates: nat -> Fate, retries: nat, store: Store, attempts: nat) {
    && 1 <= attempts <= retries
    && (forall i: nat :: i < attempts - 1 ==> TriesAgain(command, fates, i, store))
    && (attempts == retries || !TriesAgain(command, fates, attempts - 1, store))
  }

  /** The outcome of a whole run of `attempts` attempts. */
  function RunResult(command: Command, fates: nat -> Fate, store: Store, attempts: nat): Result
    requires attempts >= 1
  {
    ResultOf(command, fates, attempts - 1, store)
  }

  ghost predicate NoneExecuted(fates: nat -> Fate, attempts: nat) {
    forall i: nat :: i < attempts ==> !Executed(fates(i))
  }

  /** The fates and the store decide how many attempts are made. */
  lemma RunIsUnique(command: Command, fates: nat -> Fate, retries: nat, store: Store, a: nat, b: nat)
    requires IsRun(command, fates, retries, store, a) && IsRun(command, fates, retries, store, b)
    ensures a == b
  {
  }

  /** No attempt after the last one of a run is needed to decide it, and a run that succeeds does
      so on its last attempt only. */
  lemma RunStopsAtFirstFinalResult(command: Command, fates: nat -> Fate, retries: nat, store: Store, attempts: nat)
    requires IsRun(command, fates, retries, store, attempts)
    ensures forall i: nat :: i < attempts - 1 ==> ResultOf(command, fates, i, store).Err?
    ensures RunResult(command, fates, store, attempts).Err? ==>
              || attempts == retries
              || fates(attempts - 1).Cancelled?
              || !ShouldRetry(RunResult(command, fates, store, attempts).error)
  {
    forall i: nat | i < attempts - 1
      ensures ResultOf(command, fates, i, store).Err?
    {
      assert TriesAgain(command, fates, i, store);
    }
  }

  /** An error of the network that is a timeout or temporary. */
  predicate IsPassing(result: Result) {
    match result
    case Err(Net(timeout, temporary)) => timeout || temporary
    case _ => false
  }

  /** What is tried again: every attempt before the last found its context alive and failed with a
      timeout or a temporary network error; and a run that ends in such an error, without being
      cancelled, made all the attempts it was allowed. */
  lemma OnlyPassingErrorsAreRetried(command: Command, fates: nat -> Fate, retries: nat, store: Store, attempts: nat)
    requires IsRun(command, fates, retries, store, attempts)
    ensures forall i: nat :: i < attempts - 1 ==>
              !fates(i).Cancelled? && IsPassing(ResultOf(command, fates, i, store))
    ensures !fates(attempts - 1).Cancelled? && IsPassing(RunResult(command, fates, store, attempts)) ==>
              attempts == retries
  {
    hide ResultOf;
    forall i: nat | i < attempts - 1
      ensures !fates(i).Cancelled? && IsPassing(ResultOf(command, fates, i, store))
    {
      assert TriesAgain(command, fates, i, store);
    }
  }

  lemma {:induction false} StoreAfterSet(key: Bytes, value: Bytes, ttl: Duration, fates: nat -> Fate, attempts: nat, store: Store)
    ensures var command := Set(key, value, ttl);
            StoreAfter(command, fates, attempts, store) ==
            if IsRefused(command) || NoneExecuted(fates, attempts) then store else store[key := value]
  {
    if attempts > 0 {
      StoreAfterSet(key, value, ttl, fates, attempts - 1, store);
      assert NoneExecuted(fates, attempts) <==> NoneExecuted(fates, attempts - 1) && !Executed(fates(attempts - 1));
    }
  }

  lemma {:induction false} StoreAfterSetNX(key: Bytes, value: Bytes, ttl: Duration, fates: nat -> Fate, attempts: nat, store: Store)
    ensures var command := SetNX(key, value, ttl);
            StoreAfter(command, fates, attempts, store) ==
            if IsRefused(command) || key in store || NoneExecuted(fates, attempts) then store else store[key := value]
  {
    if attempts > 0 {
      StoreAfterSetNX(key, value, ttl, fates, attempts - 1, store);
      assert NoneExecuted(fates, attempts) <==> NoneExecuted(fates, attempts - 1) && !Executed(fates(attempts - 1));
    }
  }

  lemma {:induction false} StoreAfterGet(key: Bytes, fates: nat -> Fate, attempts: nat, store: Store)
    ensures StoreAfter(Get(key), fates, attempts, store) == store
  {
    if attempts > 0 {
      StoreAfterGet(key, fates, attempts - 1, store);
    }
  }

  lemma {:induction false} StoreAfterDel(key: Bytes, fates: nat -> Fate, attempts: nat, store: Store)
    ensures StoreAfter(Del(key), fates, attempts, store) ==
            if NoneExecuted(fates, attempts) then store else store - {key}
  {
    if attempts > 0 {
      StoreAfterDel(key, fates, attempts - 1, store);
      assert NoneExecuted(fates, attempts) <==> NoneExecuted(fates, attempts - 1) && !Executed(fates(attempts - 1));
    }
  }

  /** `Set` returning nil leaves the key mapped to the value, however often it was replayed; and
      whatever it returns, the store is the old one or the old one with that key set. */
  lemma SetMeans(key: Bytes, value: Bytes, ttl: Duration, fates: nat -> Fate, retries: nat, store: Store, attempts: nat)
    requires IsRun(Set(key, value, ttl), fates, retries, store, attempts)
    ensures var after := StoreAfter(Set(key, value, ttl), fates, attempts, store);
            && (RunResult(Set(key, value, ttl), fates, store, attempts).Ok? ==> after == store[key := value])
            && (after == store || after == store[key := value])
  {
    StoreAfterSet(key, value, ttl, fates, attempts, store);
  }

  /** `SetNX` answers "stored" exactly when the key was absent before the call and no earlier
      attempt of the call reached the server. Then the last attempt stored the value. Whatever is
      returned, the store is the old one or the old one with a key set that was absent. */
  lemma SetNXMeans(key: Bytes, value: Bytes, ttl: Duration, fates: nat -> Fate, retries: nat, store: Store, attempts: nat)
    requires IsRun(SetNX(key, value, ttl), fates, retries, store, attempts)
    ensures var result := RunResult(SetNX(key, value, ttl), fates, store, attempts);
            var after := StoreAfter(SetNX(key, value, ttl), fates, attempts, store);
            && (after == store || (key !in store && after == store[key := value]))
            && (result.Ok? ==>
                  && result.value.Stored?
                  && (result.value.created <==> key !in store && NoneExecuted(fates, attempts - 1))
                  && after == (if key in store then store else store[key := value])
                  && Executed(fates(attempts - 1)))
  {
    hide StoreAfter, Response, CommandParts, TriesAgain;
    StoreAfterSetNX(key, value, ttl, fates, attempts - 1, store);
    StoreAfterSetNX(key, value, ttl, fates, attempts, store);
  }

  /** So "not stored" does not mean that someone else held the key: here the reply to the first
      attempt is lost, and the replay finds the value that the same call stored. */
  lemma SetNXMayDenyItsOwnWrite()
    ensures exists fates: nat -> Fate ::
              && IsRun(SetNX("k", "v", 0), fates, 2, map[], 2)
              && RunResult(SetNX("k", "v", 0), fates, map[], 2) == Ok(Stored(false))
              && StoreAfter(SetNX("k", "v", 0), fates, 2, map[]) == map["k" := "v"]
  {
    var command := SetNX("k", "v", 0);
    var fates: nat -> Fate := i => Answered(if i == 0 then 0 else 5, [], Net(true, true));
    StoreAfterSetNX("k", "v", 0, fates, 1, map[]);
    StoreAfterSetNX("k", "v", 0, fates, 2, map[]);
    AnswerFrame(command, map[]);
    AnswerFrame(command, map["k" := "v"]);
    assert Executed(fates(0));
    assert TriesAgain(command, fates, 0, map[]);
    assert Delivered(command, fates(1), map["k" := "v"]);
  }

  /** `Get` never changes the store. It returns a payload only if that is the stored value, and a
      cache miss only if the key is absent; a failing network is never mistaken for a miss. */
  lemma GetMeans(key: Bytes, fates: nat -> Fate, retries: nat, store: Store, attempts: nat)
    requires IsRun(Get(key), fates, retries, store, attempts)
    ensures StoreAfter(Get(key), fates, attempts, store) == store
    ensures var result := RunResult(Get(key), fates, store, attempts);
            && (result.Ok? ==> key in store && result.value == Payload(store[key]))
            && (result == Err(CacheMiss) ==> key !in store)
            && (result.Ok? || result == Err(CacheMiss) <==> Delivered(Get(key), fates(attempts - 1), store))
  {
    StoreAfterGet(key, fates, attempts, store);
    StoreAfterGet(key, fates, attempts - 1, store);
  }

  lemma DelMeans(key: Bytes, fates: nat -> Fate, retries: nat, store: Store, attempts: nat)
    requires IsRun(Del(key), fates, retries, store, attempts)
    ensures var after := StoreAfter(Del(key), fates, attempts, store);
            && (RunResult(Del(key), fates, store, attempts).Ok? ==> after == store - {key})
            && (after == store || after == store - {key})
  {
    StoreAfterDel(key, fates, attempts, store);
  }

  /** A value that was set successfully is what a later successful read returns, byte for byte,
      and no such read reports a miss. */
  lemma SetThenGet(key: Bytes, value: Bytes, ttl: Duration, setFates: nat -> Fate, getFates: nat -> Fate,
                   retries: nat, store: Store, a: nat, b: nat)
    requires IsRun(Set(key, value, ttl), setFates, retries, store, a)
    requires RunResult(Set(key, value, ttl), setFates, store, a).Ok?
    requires IsRun(Get(key), getFates, retries, StoreAfter(Set(key, value, ttl), setFates, a, store), b)
    ensures var read := RunResult(Get(key), getFates, StoreAfter(Set(key, value, ttl), setFates, a, store), b);
            if Delivered(Get(key), getFates(b - 1), store[key := value]) then read == Ok(Payload(value))
            else read.Err? && read != Err(CacheMiss)
  {
    SetMeans(key, value, ttl, setFates, retries, store, a);
    GetMeans(key, getFates, retries, store[key := value], b);
  }

  // ---------------------------------------------------------------- how long a run sleeps

  lemma {:induction false} Pow2Monotone(m: nat, n: nat)
    requires m <= n
    ensures Pow2(m) <= Pow2(n)
  {
    if m < n {
      Pow2Monotone(m, n - 1);
    }
  }

  lemma {:induction false} Pow2Sum(m: nat, n: nat)
    ensures Pow2(m + n) == Pow2(m) * Pow2(n)
  {
    if n > 0 {
      Pow2Sum(m, n - 1);
    }
  }

  lemma Pow2Of38()
    ensures Pow2(38) == 0x40_0000_0000
  {
    assert Pow2(9) == 512;
    Pow2Sum(9, 10);
    Pow2Sum(19, 19);
  }

  lemma WrapFits(n: int)
    requires MIN_INT64 <= n <= MAX_INT64
    ensures Wrap64(n) == n
  {
  }

  lemma BackoffAtMost(attempt: nat)
    ensures Sleeps(Backoff(attempt)) <= BASE_BACKOFF * Pow2(attempt)
  {
    var p := Pow2(attempt);
    Pow2Monotone(0, attempt);
    if p <= MAX_INT64 {
      assert Wrap64(p) == p;
    } else {
      assert Sleeps(Backoff(attempt)) <= MAX_INT64;
    }
  }

  lemma BackoffIsExact(attempt: nat)
    requires attempt <= 38
    ensures Backoff(attempt) == BASE_BACKOFF * Pow2(attempt)
  {
    Pow2Of38();
    Pow2Monotone(attempt, 38);
    var p := Pow2(attempt);
    WrapFits(p);
    WrapFits(p * BASE_BACKOFF);
  }

  /** Attempt 39 asks for 2^39 * 25 ms, which wraps to a negative duration. */
  lemma BackoffWraps()
    ensures Backoff(39) < 0
  {
    Pow2Of38();
    assert Pow2(39) == 2 * Pow2(38);
  }

  lemma {:induction false} SleepAtMost(attempts: nat)
    requires attempts >= 1
    ensures SleptAfter(attempts) <= BASE_BACKOFF * (Pow2(attempts - 1) - 1)
    ensures attempts <= 40 ==> SleptAfter(attempts) == BASE_BACKOFF * (Pow2(attempts - 1) - 1)
    ensures attempts > 40 ==> SleptAfter(attempts) < BASE_BACKOFF * (Pow2(attempts - 1) - 1)
  {
    if attempts > 1 {
      hide Backoff;
      assert Pow2(attempts - 1) == 2 * Pow2(attempts - 2);
      hide Pow2;
      SleepAtMost(attempts - 1);
      BackoffAtMost(attempts - 2);
      if attempts <= 40 {
        BackoffIsExact(attempts - 2);
      } else if attempts == 41 {
        BackoffWraps();
        Pow2Monotone(0, 39);
      }
    }
  }

  /** A run of `attempts` attempts sleeps 25 ms * (2^(attempts-1) - 1) in all, exactly as long as
      the doubling delay still fits in 64 bits: from attempt 40 on it wraps around. */
  lemma SleepTotal(attempts: nat)
    requires attempts >= 1
    ensures SleptAfter(attempts) == BASE_BACKOFF * (Pow2(attempts - 1) - 1) <==> attempts <= 40
  {
    SleepAtMost(attempts);
  }

  /** An attempt that finds its context done changes nothing and reports so. */
  lemma CancelledAttempt(command: Command, fates: nat -> Fate)
    ensures forall i: nat, store :: fates(i).Cancelled? ==>
              AttemptResult(command, fates(i), store) == Err(ContextDone)
              && StoreAfterOne(command, fates(i), store) == store
  {
  }

  class ValkeyProvider {
    const maxRetries: int
    const server: ValkeyServer
    var dialled: nat
    var closed: nat
    var slept: nat

    constructor (maxRetries: int, server: ValkeyServer)
      ensures this.maxRetries == maxRetries && this.server == server
      ensures dialled == closed == slept == 0
    {
      this.maxRetries, this.server := maxRetries, server;
      dialled, closed, slept := 0, 0, 0;
    }

    function Retries(): (retries: nat)
      ensures retries == maxRetries || (retries == 1 && maxRetries < 1)
      ensures retries >= 1
    {
      if maxRetries <= 0 then 1 else maxRetries
    }

    /** One run of the operation's closure on a fresh connection. */
    method Attempt(command: Command, fate: Fate) returns (result: Result)
      requires !fate.Cancelled?
      modifies this, server
      ensures result == AttemptResult(command, fate, old(server.store))
      ensures server.store == StoreAfterOne(command, fate, old(server.store))
      ensures dialled == old(dialled) + (if fate.DialFails? then 0 else 1)
      ensures closed == old(closed) + (if fate.DialFails? then 0 else 1)
      ensures slept == old(slept)
    {
      hide Execute, Effect, Answer, Interpret, ParseReply, ParseCommand, CommandFrame, Flatten;
      if fate.DialFails? {
        return Err(fate.error);
      }
      var vc := new ValkeyConn([]);
      dialled := dialled + 1;
      if fate.BootstrapFails? {
        closed := closed + 1;
        return Err(fate.error);
      }
      vc.Write(CommandParts(command));
      match fate {
        case CommandLost(error) =>
          result := Err(error);
        case Answered(received, cuts, error) =>
          CommandRoundTrip(CommandParts(command), "");
          assert vc.outgoing == CommandFrame(CommandParts(command)) + "";
          var response := server.Serve(vc.outgoing);
          ExecuteEffect(command, old(server.store));
          WireAttempt(command, old(server.store), received, error);
          vc.incoming := Chunks(if received < |response| then response[..received] else response, cuts);
          var outcome := vc.ReadReply();
          result := Interpret(command, outcome, error);
      }
      closed := closed + 1;
    }

    /** The retry loop. The statement after it is never reached. */
    method WithConn(command: Command, fates: nat -> Fate) returns (result: Result, ghost attempts: nat)
      modifies this, server
      ensures IsRun(command, fates, Retries(), old(server.store), attempts)
      ensures result == ResultOf(command, fates, attempts - 1, old(server.store))
      ensures server.store == StoreAfter(command, fates, attempts, old(server.store))
      ensures dialled == old(dialled) + DialledAfter(fates, attempts)
      ensures closed == old(closed) + DialledAfter(fates, attempts)
      ensures slept == old(slept) + SleptAfter(attempts)
    {
      hide Delivered, Effect, Answer, StoreAfterOne, AttemptResult, Backoff, Sleeps;
      CancelledAttempt(command, fates);
      var retries := Retries();
      var attempt := 0;
      attempts := 1;
      while attempt < retries
        invariant attempt < retries
        invariant server.store == StoreAfter(command, fates, attempt, old(server.store))
        invariant forall i: nat :: i < attempt ==> TriesAgain(command, fates, i, old(server.store))
        invariant dialled == old(dialled) + DialledAfter(fates, attempt)
        invariant closed == old(closed) + DialledAfter(fates, attempt)
        invariant slept == old(slept) + SleptAfter(attempt + 1)
      {
        attempts := attempt + 1;
        if fates(attempt).Cancelled? {
          return Err(ContextDone), attempts;
        }
        result := Attempt(command, fates(attempt));
        assert result == ResultOf(command, fates, attempt, old(server.store));
        if result.Ok? {
          return;
        }
        if ShouldRetry(result.error) && attempt < retries - 1 {
          slept := slept + Sleeps(Backoff(attempt));
          attempt := attempt + 1;
          continue;
        }
        return;
      }
      assert false;
    }

    /** `payload` is the stored value; absence is `Err(CacheMiss)`. */
    method Get(key: Bytes, fates: nat -> Fate) returns (result: Result)
      modifies this, server
      ensures server.store == old(server.store)
      ensures result.Ok? ==> key in server.store && result.value == Payload(server.store[key])
      ensures result == Err(CacheMiss) ==> key !in server.store
    {
      ghost var attempts;
      result, attempts := WithConn(Command.Get(key), fates);
      GetMeans(key, fates, Retries(), old(server.store), attempts);
    }

    method Set(key: Bytes, value: Bytes, ttl: Duration, fates: nat -> Fate) returns (result: Result)
      modifies this, server
      ensures server.store == old(server.store) || server.store == old(server.store)[key := value]
      ensures result.Ok? ==> server.store == old(server.store)[key := value]
    {
      ghost var attempts;
      result, attempts := WithConn(Command.Set(key, value, ttl), fates);
      SetMeans(key, value, ttl, fates, Retries(), old(server.store), attempts);
    }

    method SetNX(key: Bytes, value: Bytes, ttl: Duration, fates: nat -> Fate) returns (result: Result)
      modifies this, server
      ensures server.store == old(server.store)
              || (key !in old(server.store) && server.store == old(server.store)[key := value])
      ensures result.Ok? ==> result.value.Stored?
      ensures result.Ok? ==> server.store == if key in old(server.store) then old(server.store)
                                             else old(server.store)[key := value]
      ensures result == Ok(Stored(true)) ==> key !in old(server.store)
    {
      ghost var attempts;
      result, attempts := WithConn(Command.SetNX(key, value, ttl), fates);
      SetNXMeans(key, value, ttl, fates, Retries(), old(server.store), attempts);
    }

    method Del(key: Bytes, fates: nat -> Fate) returns (result: Result)
      modifies this, server
      ensures server.store == old(server.store) || server.store == old(server.store) - {key}
      ensures result.Ok? ==> server.store == old(server.store) - {key}
    {
      ghost var attempts;
      result, attempts := WithConn(Command.Del(key), fates);
      DelMeans(key, fates, Retries(), old(server.store), attempts);
    }
  }
}
