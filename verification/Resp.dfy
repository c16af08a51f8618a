/** RESP framing of published messages (bus.go, writeRedisCommand, readRedisPubSubMessage and
    the loop that reads messages): arrays in the Redis serialization protocol. */
module Resp {
  import opened Text

  const CRLF := "\r\n"

  // ---- writing ----

  function Bulk(arg: string): string {
    "$" + Itoa(|arg|) + CRLF + arg + CRLF
  }

  function Bulks(args: seq<string>): string {
    if args == [] then "" else Bulk(args[0]) + Bulks(args[1..])
  }

  function Command(args: seq<string>): string {
    "*" + Itoa(|args|) + CRLF + Bulks(args)
  }

  lemma {:induction false} BulksAppend(args: seq<string>, arg: string)
    ensures Bulks(args + [arg]) == Bulks(args) + Bulk(arg)
  {
    if args == [] {
      assert args + [arg] == [arg];
    } else {
      assert (args + [arg])[1..] == args[1..] + [arg];
      BulksAppend(args[1..], arg);
    }
  }

  method WriteRedisCommand(args: seq<string>) returns (b: string)
    ensures b == Command(args)
  {
    hide Itoa;
    b := "*" + Itoa(|args|) + CRLF;
    ghost var header := b;
    for i := 0 to |args|
      invariant b == header + Bulks(args[..i])
    {
      BulksAppend(args[..i], args[i]);
      assert args[..i + 1] == args[..i] + [args[i]];
      ghost var before := b;
      b := b + "$";
      b := b + Itoa(|args[i]|);
      b := b + CRLF;
      b := b + args[i];
      b := b + CRLF;
      assert b == before + Bulk(args[i]);
      assert header + (Bulks(args[..i]) + Bulk(args[i])) == header + Bulks(args[..i]) + Bulk(args[i]);
    }
    assert args[..|args|] == args;
  }

  // ---- reading ----

  /** Done with a value and the unread rest; a returned error; or a run-time panic. */
  datatype Read<+T> = Done(value: T, rest: string) | Error | Panic

  /** How many bytes one buffered Read has at hand, by the number still unread. */
  type Arrivals = nat -> nat

  /** `ReadString('\n')` with the line's surrounding space trimmed. */
  function ReadLine(s: string): (r: Read<string>)
    ensures !r.Panic? && (r.Done? ==> |r.rest| < |s|)
  {
    var i := Find(s, '\n');
    if i < |s| then Done(Trim(s[..i + 1]), s[i + 1..]) else Error
  }

  function ReadNumber(s: string): (r: Read<int>)
    ensures r.Done? ==> |r.rest| < |s|
  {
    match ReadLine(s)
    case Done(line, rest) =>
      (match Atoi(line)
       case Some(n) => Done(n, rest)
       case None => Error)
    case _ => Error
  }

  /** What one Read into a buffer of `want` bytes takes: whatever is at hand, at least a byte. */
  function Got(want: nat, s: string, arrives: Arrivals): (n: nat)
    ensures n <= |s| && n <= want && (s != "" && want > 0 ==> n > 0)
  {
    var ready := if arrives(|s|) == 0 then 1 else arrives(|s|);
    if want <= ready && want <= |s| then want else if ready <= |s| then ready else |s|
  }

  function Zeros(n: nat): (z: string)
    ensures |z| == n && forall i :: 0 <= i < n ==> z[i] == '\0'
  {
    seq(n, _ => '\0')
  }

  /** One Read into a zeroed buffer of `size` + 2 bytes, of which `size` are kept, however
      many were read. Negative lengths panic, in `make` or in the slice expression. */
  function ReadBulkBody(s: string, size: int, arrives: Arrivals): (r: Read<string>)
    ensures r.Done? ==> |r.rest| <= |s|
  {
    if size + 2 < 0 || size + 2 > MAX_INT then Panic
    else if s == "" && size + 2 > 0 then Error
    else if size < 0 then Panic
    else
      var n := Got(size + 2, s, arrives);
      Done((s[..n] + Zeros(size + 2 - n))[..size], s[n..])
  }

  /** A length line and what it announces. */
  function ReadBulk(s: string, arrives: Arrivals): (r: Read<string>)
    ensures r.Done? ==> |r.rest| < |s|
  {
    match ReadNumber(s)
    case Done(size, rest) => ReadBulkBody(rest, size, arrives)
    case Error => Error
    case Panic => Panic
  }

  function ReadPart(s: string, arrives: Arrivals): (r: Read<string>)
    ensures r.Done? ==> |r.rest| < |s|
  {
    if s == "" then Error
    else if s[0] == '$' then ReadBulk(s[1..], arrives)
    else if s[0] == ':' || s[0] == '+' then ReadLine(s[1..])
    else Error
  }

  function ReadParts(s: string, count: nat, arrives: Arrivals): (r: Read<seq<string>>)
    ensures r.Done? ==> |r.rest| <= |s| && |r.value| == count
    decreases count
  {
    if count == 0 then Done([], s)
    else
      match ReadPart(s, arrives)
      case Done(part, rest) =>
        (match ReadParts(rest, count - 1, arrives)
         case Done(parts, rest') => Done([part] + parts, rest')
         case Error => Error
         case Panic => Panic)
      case Error => Error
      case Panic => Panic
  }

  function ReadArray(s: string, arrives: Arrivals): (r: Read<seq<string>>)
    ensures r.Done? ==> |r.rest| < |s|
  {
    if s == "" || s[0] != '*' then Error
    else
      match ReadNumber(s[1..])
      case Done(count, rest) => if count < 0 then Panic else ReadParts(rest, count, arrives)
      case Error => Error
      case Panic => Panic
  }

  predicate IsControl(verb: string) {
    verb == "subscribe" || verb == "psubscribe" || verb == "pong"
  }

  /** The payload of a published message; "" for a control reply. */
  function ReadMessage(s: string, arrives: Arrivals): (r: Read<string>)
    ensures r.Done? ==> |r.rest| < |s|
  {
    match ReadArray(s, arrives)
    case Done(parts, rest) =>
      if |parts| >= 1 && IsControl(parts[0]) then Done("", rest)
      else if |parts| < 3 || parts[0] != "message" then Error
      else Done(parts[2], rest)
    case Error => Error
    case Panic => Panic
  }

  /** The signals a subscriber receives: messages one after another until one cannot be
      read, without the empty ones and those that do not decode. */
  function Received<T>(s: string, arrives: Arrivals, decode: string -> Option<T>): seq<T>
    decreases |s|
  {
    match ReadMessage(s, arrives)
    case Done(payload, rest) => Signal(payload, decode) + Received(rest, arrives, decode)
    case _ => []
  }

  function Signal<T>(payload: string, decode: string -> Option<T>): seq<T> {
    if payload == "" || decode(payload).None? then [] else [decode(payload).value]
  }

  lemma ReceivedStep<T>(s: string, arrives: Arrivals, decode: string -> Option<T>)
    ensures Received(s, arrives, decode) ==
      match ReadMessage(s, arrives)
      case Done(payload, rest) => Signal(payload, decode) + Received(rest, arrives, decode)
      case _ => []
  {
    hide ReadMessage, Signal;
  }

  lemma SignalIs<T>(payload: string, decode: string -> Option<T>)
    ensures Signal(payload, decode) == if payload != "" && decode(payload).Some? then [decode(payload).value] else []
  {
  }

  /** The buffered connection: its bytes, when they arrive, and how far they have been read. */
  class BufReader {
    const data: string
    const arrives: Arrivals
    var pos: nat

    ghost predicate Valid()
      reads this
    {
      pos <= |data|
    }

    function Rest(): string
      requires Valid()
      reads this
    {
      data[pos..]
    }

    constructor (data: string, arrives: Arrivals)
      ensures Valid() && Rest() == data && this.arrives == arrives
    {
      this.data, this.arrives := data, arrives;
      pos := 0;
    }

    method ReadByte() returns (c: Option<char>)
      requires Valid()
      modifies this
      ensures Valid()
      ensures old(Rest()) == "" ==> c == None && Rest() == ""
      ensures old(Rest()) != "" ==> c == Some(old(Rest())[0]) && Rest() == old(Rest())[1..]
    {
      if pos == |data| {
        return None;
      }
      c := Some(data[pos]);
      pos := pos + 1;
    }

    method ReadTrimmedLine() returns (r: Option<string>)
      requires Valid()
      modifies this
      ensures Valid()
      ensures match ReadLine(old(Rest()))
        case Done(line, rest) => r == Some(line) && Rest() == rest
        case _ => r == None
    {
      var s := Rest();
      var i := Find(s, '\n');
      if i == |s| {
        pos := |data|;
        return None;
      }
      r := Some(Trim(s[..i + 1]));
      pos := pos + i + 1;
    }

    /** One Read into a zeroed buffer; None at the end of the stream. */
    method ReadOnce(want: nat) returns (buf: Option<string>)
      requires Valid()
      modifies this
      ensures Valid()
      ensures old(Rest()) == "" && want > 0 ==> buf == None && Rest() == ""
      ensures old(Rest()) != "" || want == 0 ==>
        var n := Got(want, old(Rest()), arrives);
        buf == Some(old(Rest())[..n] + Zeros(want - n)) && Rest() == old(Rest())[n..]
    {
      if pos == |data| && want > 0 {
        return None;
      }
      var n := Got(want, Rest(), arrives);
      buf := Some(Rest()[..n] + Zeros(want - n));
      pos := pos + n;
    }

    method ReadPubSubMessage() returns (r: Read<string>)
      requires Valid()
      modifies this
      ensures Valid()
      ensures match ReadMessage(old(Rest()), arrives)
        case Done(payload, rest) => r == Done(payload, rest) && Rest() == rest
        case Error => r == Error
        case Panic => r == Panic
    {
      hide ReadParts, Atoi, ReadLine;
      var prefix := ReadByte();
      if prefix == None || prefix.value != '*' {
        return Error;
      }
      var countLine := ReadTrimmedLine();
      if countLine == None {
        return Error;
      }
      var count := Atoi(countLine.value);
      if count == None {
        return Error;
      }
      if count.value < 0 {
        return Panic;
      }
      var whole := ReadAllParts(count.value);
      if !whole.Done? {
        return if whole.Error? then Error else Panic;
      }
      var parts := whole.value;
      if |parts| >= 1 && IsControl(parts[0]) {
        return Done("", Rest());
      }
      if |parts| < 3 || parts[0] != "message" {
        return Error;
      }
      return Done(parts[2], Rest());
    }

    method ReadAllParts(count: nat) returns (r: Read<seq<string>>)
      requires Valid()
      modifies this
      ensures Valid()
      ensures r == ReadParts(old(Rest()), count, arrives)
      ensures r.Done? ==> Rest() == r.rest
    {
      hide ReadPart;
      var parts: seq<string> := [];
      ghost var body := Rest();
      PrependNothing(ReadParts(body, count, arrives));
      for i := 0 to count
        invariant Valid()
        invariant Prepended(parts, ReadParts(Rest(), count - i, arrives)) == ReadParts(body, count, arrives)
      {
        var part := ReadOnePart();
        if !part.Done? {
          return if part.Error? then Error else Panic;
        }
        PrependOne(parts, part.value, ReadParts(Rest(), count - i - 1, arrives));
        parts := parts + [part.value];
      }
      assert parts + [] == parts;
      r := Done(parts, Rest());
    }

    method ReadOnePart() returns (r: Read<string>)
      requires Valid()
      modifies this
      ensures Valid()
      ensures r == ReadPart(old(Rest()), arrives)
      ensures r.Done? ==> Rest() == r.rest
    {
      hide ReadBulk, ReadLine;
      var kind := ReadByte();
      if kind == None {
        return Error;
      }
      if kind.value == '$' {
        r := ReadOneBulk();
      } else if kind.value == ':' || kind.value == '+' {
        var line := ReadTrimmedLine();
        r := if line == None then Error else Done(line.value, Rest());
      } else {
        r := Error;
      }
    }

    method ReadOneBulk() returns (r: Read<string>)
      requires Valid()
      modifies this
      ensures Valid()
      ensures r == ReadBulk(old(Rest()), arrives)
      ensures r.Done? ==> Rest() == r.rest
    {
      hide Atoi, ReadLine, ReadBulkBody;
      var lenLine := ReadTrimmedLine();
      if lenLine == None {
        return Error;
      }
      var size := Atoi(lenLine.value);
      if size == None {
        return Error;
      }
      r := ReadSized(size.value);
    }

    method ReadSized(size: int) returns (r: Read<string>)
      requires Valid()
      modifies this
      ensures Valid()
      ensures r == ReadBulkBody(old(Rest()), size, arrives)
      ensures r.Done? ==> Rest() == r.rest
    {
      hide Got, Zeros;
      if size + 2 < 0 || size + 2 > MAX_INT {
        return Panic;
      }
      var buf := ReadOnce(size + 2);
      if buf == None {
        return Error;
      }
      if size < 0 {
        return Panic;
      }
      r := Done(buf.value[..size], Rest());
    }

    /** The subscriber's loop. */
    method ReadLoop<T>(decode: string -> Option<T>) returns (out: seq<T>)
      requires Valid()
      modifies this
      ensures Valid()
      ensures out == Received(old(Rest()), arrives, decode)
    {
      hide ReadMessage, Received, Signal;
      out := [];
      ghost var whole := Received(Rest(), arrives, decode);
      while true
        invariant Valid()
        invariant whole == out + Received(Rest(), arrives, decode)
        decreases |Rest()|
      {
        ghost var before, unread := out, Rest();
        ReceivedStep(unread, arrives, decode);
        var r := ReadPubSubMessage();
        if !r.Done? {
          return;
        }
        SignalIs(r.value, decode);
        assert before + Signal(r.value, decode) + Received(Rest(), arrives, decode)
            == before + (Signal(r.value, decode) + Received(Rest(), arrives, decode));
        if r.value != "" {
          var signal := decode(r.value);
          if signal.Some? {
            out := out + [signal.value];
          }
        }
      }
    }
  }

  /** A read of later parts seen from before the first ones. */
  function Prepended(parts: seq<string>, later: Read<seq<string>>): Read<seq<string>> {
    match later
    case Done(more, rest) => Done(parts + more, rest)
    case _ => later
  }

  lemma PrependOne(parts: seq<string>, part: string, later: Read<seq<string>>)
    ensures Prepended(parts + [part], later) == Prepended(parts, Prepended([part], later))
  {
    if later.Done? {
      assert parts + [part] + later.value == parts + ([part] + later.value);
    }
  }

  lemma PrependNothing(later: Read<seq<string>>)
    ensures Prepended([], later) == later
  {
    if later.Done? {
      assert [] + later.value == later.value;
    }
  }

  // ---- what a server sends ----

  datatype Part = Text(text: string) | Number(n: nat) | Line(line: string)

  function Sent(part: Part): string {
    match part
    case Text(text) => Bulk(text)
    case Number(n) => ":" + Itoa(n) + CRLF
    case Line(line) => "+" + line + CRLF
  }

  function Shown(part: Part): string {
    match part
    case Text(text) => text
    case Number(n) => Itoa(n)
    case Line(line) => line
  }

  function AllSent(parts: seq<Part>): string {
    if parts == [] then "" else Sent(parts[0]) + AllSent(parts[1..])
  }

  function AllShown(parts: seq<Part>): (r: seq<string>)
    ensures |r| == |parts| && forall i :: 0 <= i < |r| ==> r[i] == Shown(parts[i])
  {
    if parts == [] then [] else [Shown(parts[0])] + AllShown(parts[1..])
  }

  function Array(parts: seq<Part>): string {
    "*" + Itoa(|parts|) + CRLF + AllSent(parts)
  }

  function Texts(args: seq<string>): (parts: seq<Part>)
    ensures |parts| == |args| && forall i :: 0 <= i < |args| ==> parts[i] == Text(args[i])
  {
    if args == [] then [] else [Text(args[0])] + Texts(args[1..])
  }

  /** What the bus itself writes is an array of texts. */
  lemma {:induction false} CommandIsArray(args: seq<string>)
    ensures Bulks(args) == AllSent(Texts(args)) && Command(args) == Array(Texts(args))
  {
    hide Itoa, Bulk;
    if args != [] {
      CommandIsArray(args[1..]);
    }
  }

  /** A length the reader can take in, or a line that is one. */
  predicate Fits(part: Part) {
    match part
    case Text(text) => |text| + 2 <= MAX_INT
    case Number(_) => true
    case Line(line) => Trimmed(line) && '\n' !in line
  }

  ghost predicate AllFit(parts: seq<Part>) {
    |parts| <= MAX_INT && forall part :: part in parts ==> Fits(part)
  }

  /** Before `after`, the text and its CRLF arrive together. */
  predicate Together(part: Part, after: string, arrives: Arrivals) {
    part.Text? ==> arrives(|part.text| + 2 + |after|) >= |part.text| + 2
  }

  ghost predicate Whole(parts: seq<Part>, suffix: string, arrives: Arrivals) {
    parts != [] ==>
      Together(parts[0], AllSent(parts[1..]) + suffix, arrives) && Whole(parts[1..], suffix, arrives)
  }

  // ---- the round trip ----

  lemma TrimOfLine(line: string)
    requires Trimmed(line)
    ensures Trim(line + CRLF) == line
  {
    assert CRLF[..1] == "\r" && "\r"[..0] == "" && CRLF[1..] == "\n" && "\n"[1..] == "";
    if line == "" {
      assert line + CRLF == CRLF;
    } else {
      assert (line + CRLF)[0] == line[0];
      TrimRightOfConcat(line, CRLF);
    }
  }

  lemma LineRoundTrip(line: string, suffix: string)
    requires Trimmed(line) && '\n' !in line
    ensures ReadLine(line + CRLF + suffix) == Done(line, suffix)
  {
    hide Trim, Find, Trimmed;
    var s := line + CRLF + suffix;
    assert s == (line + "\r") + ['\n'] + suffix;
    FindUnique(line + "\r", '\n', suffix);
    assert s[..|line| + 2] == line + CRLF;
    TrimOfLine(line);
  }

  /** A printed length or count is read back, and only its line is consumed. */
  lemma NumberRoundTrip(n: nat, suffix: string)
    requires n <= MAX_INT
    ensures ReadNumber(Itoa(n) + CRLF + suffix) == Done(n, suffix)
  {
    ItoaHasNoSpace(n);
    LineRoundTrip(Itoa(n), suffix);
    AtoiOfItoa(n);
    hide Itoa, Atoi, ReadLine;
  }

  /** What is kept of a text of which only the first `n` bytes were read. */
  function Padded(text: string, n: nat): string {
    if n >= |text| then text else text[..n] + Zeros(|text| - n)
  }

  function FirstRead(text: string, after: string, arrives: Arrivals): (n: nat)
    ensures 0 < n <= |text| + 2
  {
    Got(|text| + 2, text + CRLF + after, arrives)
  }

  /** A bulk string of any bytes, CR and LF included, is read as far as one Read goes. */
  lemma BulkIsRead(text: string, suffix: string, arrives: Arrivals)
    requires |text| + 2 <= MAX_INT
    ensures var n := FirstRead(text, suffix, arrives);
      && ReadPart(Bulk(text) + suffix, arrives) == Done(Padded(text, n), (text + CRLF)[n..] + suffix)
      && (n == |text| + 2 <==> Together(Text(text), suffix, arrives))
  {
    hide Itoa, ReadNumber;
    var body := text + CRLF + suffix;
    NumberRoundTrip(|text|, body);
    var s := Bulk(text) + suffix;
    assert s[1..] == Itoa(|text|) + CRLF + body;
    var n := FirstRead(text, suffix, arrives);
    assert body == (text + CRLF) + suffix;
    assert body[n..] == (text + CRLF)[n..] + suffix;
    assert (body[..n] + Zeros(|text| + 2 - n))[..|text|] == Padded(text, n);
  }

  /** A bulk string makes the round trip exactly when it arrives in one Read. */
  lemma BulkRoundTrip(text: string, suffix: string, arrives: Arrivals)
    requires |text| + 2 <= MAX_INT
    ensures ReadPart(Bulk(text) + suffix, arrives) == Done(text, suffix) <==> Together(Text(text), suffix, arrives)
  {
    BulkIsRead(text, suffix, arrives);
    hide Bulk, ReadPart, FirstRead;
    var n := FirstRead(text, suffix, arrives);
    if n == |text| + 2 {
      assert (text + CRLF)[n..] + suffix == suffix;
    } else {
      assert |(text + CRLF)[n..] + suffix| > |suffix|;
    }
  }

  lemma PartRoundTrip(part: Part, suffix: string, arrives: Arrivals)
    requires Fits(part) && Together(part, suffix, arrives)
    ensures ReadPart(Sent(part) + suffix, arrives) == Done(Shown(part), suffix)
  {
    hide Itoa, ReadLine, Bulk, Trimmed;
    match part {
      case Text(text) => BulkRoundTrip(text, suffix, arrives);
      case Number(n) =>
        ItoaHasNoSpace(n);
        LineRoundTrip(Itoa(n), suffix);
        assert (Sent(part) + suffix)[1..] == Itoa(n) + CRLF + suffix;
      case Line(line) =>
        LineRoundTrip(line, suffix);
        assert (Sent(part) + suffix)[1..] == line + CRLF + suffix;
    }
  }

  /** After a short Read either the text is wrong or the next part cannot be read. */
  lemma ShortRead(text: string, suffix: string, arrives: Arrivals)
    requires |text| + 2 <= MAX_INT && !Together(Text(text), suffix, arrives)
    ensures var r := ReadPart(Bulk(text) + suffix, arrives);
      && r.Done? && |r.rest| > |suffix|
      && (r.value == text ==> ReadPart(r.rest, arrives).Error?)
  {
    hide Bulk, FirstRead, Together, ReadPart;
    BulkIsRead(text, suffix, arrives);
    var r, n := ReadPart(Bulk(text) + suffix, arrives), FirstRead(text, suffix, arrives);
    assert r.rest[0] == (text + CRLF)[n];
    if n < |text| {
      assert Padded(text, n)[n] == '\0';
    } else {
      assert (text + CRLF)[n] == CRLF[n - |text|];
    }
    NotAPart(r.rest, arrives);
  }

  lemma NotAPart(s: string, arrives: Arrivals)
    ensures s == "" || s[0] == '\0' || s[0] == '\r' || s[0] == '\n' ==> ReadPart(s, arrives).Error?
  {
    hide ReadBulk, ReadLine;
  }

  /** An array's parts come back, and nothing more is consumed, exactly when each text arrives in one Read. */
  lemma {:induction false} PartsRoundTrip(parts: seq<Part>, suffix: string, arrives: Arrivals)
    requires forall part :: part in parts ==> Fits(part)
    ensures ReadParts(AllSent(parts) + suffix, |parts|, arrives) == Done(AllShown(parts), suffix)
       <==> Whole(parts, suffix, arrives)
  {
    hide Sent, Shown, ReadPart, Together, Fits, Bulk;
    if parts != [] {
      var more := AllSent(parts[1..]) + suffix;
      var s := AllSent(parts) + suffix;
      assert s == Sent(parts[0]) + more;
      if Together(parts[0], more, arrives) {
        PartRoundTrip(parts[0], more, arrives);
        PartsRoundTrip(parts[1..], suffix, arrives);
        FirstPart(Shown(parts[0]), ReadParts(more, |parts| - 1, arrives), AllShown(parts[1..]), suffix);
      } else {
        NotTogether(parts[0], more, arrives);
        OneByOne(s, parts, suffix, arrives);
      }
    }
  }

  lemma FirstPart(part: string, later: Read<seq<string>>, more: seq<string>, suffix: string)
    ensures Prepended([part], later) == Done([part] + more, suffix) <==> later == Done(more, suffix)
  {
    if later.Done? {
      assert ([part] + later.value)[1..] == later.value && ([part] + more)[1..] == more;
    }
  }

  lemma NotTogether(part: Part, after: string, arrives: Arrivals)
    requires Fits(part) && !Together(part, after, arrives)
    ensures var r := ReadPart(Sent(part) + after, arrives);
      r.Done? && |r.rest| > |after| && (r.value == Shown(part) ==> ReadPart(r.rest, arrives).Error?)
  {
    ShortRead(part.text, after, arrives);
    hide ReadPart, Bulk;
  }

  /** A first part that comes out wrong, or spoils the next, spoils the array. */
  lemma OneByOne(s: string, parts: seq<Part>, suffix: string, arrives: Arrivals)
    requires parts != []
    requires var r := ReadPart(s, arrives);
      && r.Done? && |r.rest| > |AllSent(parts[1..]) + suffix|
      && (r.value == Shown(parts[0]) ==> ReadPart(r.rest, arrives).Error?)
    ensures ReadParts(s, |parts|, arrives) != Done(AllShown(parts), suffix)
  {
    hide Shown, ReadPart;
    var r, all := ReadPart(s, arrives), ReadParts(s, |parts|, arrives);
    if r.value == Shown(parts[0]) && |parts| > 1 {
      assert ReadParts(r.rest, |parts| - 1, arrives).Error?;
    } else if all.Done? {
      assert all.value[0] == r.value;
    }
  }

  lemma ArrayIsRead(parts: seq<Part>, suffix: string, arrives: Arrivals)
    requires |parts| <= MAX_INT
    ensures ReadArray(Array(parts) + suffix, arrives) == ReadParts(AllSent(parts) + suffix, |parts|, arrives)
  {
    hide Itoa, ReadNumber, AllSent, ReadParts;
    var s := Array(parts) + suffix;
    assert s[1..] == Itoa(|parts|) + CRLF + (AllSent(parts) + suffix);
    NumberRoundTrip(|parts|, AllSent(parts) + suffix);
  }

  lemma ArrayRoundTrip(parts: seq<Part>, suffix: string, arrives: Arrivals)
    requires AllFit(parts)
    ensures ReadArray(Array(parts) + suffix, arrives) == Done(AllShown(parts), suffix) <==> Whole(parts, suffix, arrives)
  {
    ArrayIsRead(parts, suffix, arrives);
    PartsRoundTrip(parts, suffix, arrives);
    hide Array, ReadArray, ReadParts, AllSent, Whole;
  }

  /** Reading a command that was written returns its arguments, and stops at the suffix,
      exactly when each argument arrives in one Read. */
  lemma CommandRoundTrip(args: seq<string>, suffix: string, arrives: Arrivals)
    requires |args| <= MAX_INT && forall a :: a in args ==> |a| + 2 <= MAX_INT
    ensures ReadArray(Command(args) + suffix, arrives) == Done(args, suffix) <==> Whole(Texts(args), suffix, arrives)
  {
    CommandIsArray(args);
    assert AllShown(Texts(args)) == args;
    ArrayRoundTrip(Texts(args), suffix, arrives);
  }

  // ---- what is not read ----

  /** A bulk string that is announced as missing is not read as empty: at the end of the stream
      it is an error, and before more bytes the reader panics; so it does on a missing array. */
  lemma MissingIsNotEmpty(rest: string, arrives: Arrivals)
    ensures ReadPart("$-1\r\n" + rest, arrives) == if rest == "" then Error else Panic
    ensures ReadArray("*-1\r\n" + rest, arrives) == Panic
  {
    hide ReadPart, ReadArray;
    MissingBulk(rest, arrives);
    MissingArray(rest, arrives);
  }

  lemma MissingBulk(rest: string, arrives: Arrivals)
    ensures ReadPart("$-1\r\n" + rest, arrives) == if rest == "" then Error else Panic
  {
    hide ReadNumber, Got, Zeros;
    MinusOne(rest);
    assert ("$-1\r\n" + rest)[1..] == "-1" + CRLF + rest;
  }

  lemma MissingArray(rest: string, arrives: Arrivals)
    ensures ReadArray("*-1\r\n" + rest, arrives) == Panic
  {
    hide ReadNumber, ReadParts;
    MinusOne(rest);
    assert ("*-1\r\n" + rest)[1..] == "-1" + CRLF + rest;
  }

  lemma MinusOne(rest: string)
    ensures ReadNumber("-1" + CRLF + rest) == Done(-1, rest)
  {
    LineRoundTrip("-1", rest);
    assert "-1"[1..] == "1";
    hide ReadLine;
  }

  /** A part of any other kind, an error reply among them, is refused, as is anything that is not
      an array where a message is due. */
  lemma OtherKindsRefused(s: string, arrives: Arrivals)
    ensures s == "" || (s[0] != '$' && s[0] != ':' && s[0] != '+') ==> ReadPart(s, arrives).Error?
    ensures s == "" || s[0] != '*' ==> ReadMessage(s, arrives).Error?
  {
    hide ReadLine, ReadBulk, ReadParts, ReadNumber;
  }

  /** An array that is neither a message of three parts or more nor a control reply is refused. */
  lemma OtherArraysRefused(s: string, arrives: Arrivals)
    requires ReadArray(s, arrives).Done?
    ensures var parts := ReadArray(s, arrives).value;
      ReadMessage(s, arrives).Error? <==>
        (parts == []
         || (parts[0] != "subscribe" && parts[0] != "psubscribe" && parts[0] != "pong" && (|parts| < 3 || parts[0] != "message")))
  {
    hide ReadArray;
  }

  // ---- messages ----

  function MessageParts(channel: string, payload: string): seq<Part> {
    [Text("message"), Text(channel), Text(payload)]
  }

  function Frame(channel: string, payload: string): string {
    Array(MessageParts(channel, payload))
  }

  lemma ControlsDiffer()
    ensures !IsControl("message")
  {
    assert "message"[0] != "subscribe"[0] && |"message"| == 7;
  }

  lemma FirstSent(first: Part, more: seq<Part>, suffix: string, arrives: Arrivals)
    ensures AllSent([first] + more) + suffix == Sent(first) + (AllSent(more) + suffix)
    ensures AllSent([]) + suffix == suffix
    ensures Whole([first] + more, suffix, arrives) <==>
      Together(first, AllSent(more) + suffix, arrives) && Whole(more, suffix, arrives)
  {
    hide Sent, Together;
    assert ([first] + more)[1..] == more;
  }

  /** The three parts of a frame, one after another. */
  lemma FrameByParts(channel: string, payload: string, suffix: string, arrives: Arrivals)
    ensures AllSent(MessageParts(channel, payload)) + suffix
         == Bulk("message") + (Bulk(channel) + (Bulk(payload) + suffix))
    ensures Whole(MessageParts(channel, payload), suffix, arrives) <==>
      && Together(Text("message"), Bulk(channel) + (Bulk(payload) + suffix), arrives)
      && Together(Text(channel), Bulk(payload) + suffix, arrives)
      && Together(Text(payload), suffix, arrives)
  {
    assert Whole([], suffix, arrives);
    hide Bulk, Together, AllSent, Whole;
    var a, b, c := Text("message"), Text(channel), Text(payload);
    FirstSent(c, [], suffix, arrives);
    FirstSent(b, [c] + [], suffix, arrives);
    FirstSent(a, [b] + ([c] + []), suffix, arrives);
    assert MessageParts(channel, payload) == [a] + ([b] + ([c] + []));
  }

  lemma FrameIsRead(channel: string, payload: string, suffix: string, arrives: Arrivals)
    ensures ReadArray(Frame(channel, payload) + suffix, arrives)
         == ReadParts(Bulk("message") + (Bulk(channel) + (Bulk(payload) + suffix)), 3, arrives)
  {
    ArrayIsRead(MessageParts(channel, payload), suffix, arrives);
    FrameByParts(channel, payload, suffix, arrives);
    hide Array, ReadArray, ReadParts, AllSent, Bulk;
  }

  lemma PartsStep(s: string, count: nat, arrives: Arrivals)
    requires count > 0
    ensures ReadParts(s, count, arrives) ==
      match ReadPart(s, arrives)
      case Done(part, rest) => Prepended([part], ReadParts(rest, count - 1, arrives))
      case Error => Error
      case Panic => Panic
  {
    hide ReadPart;
  }

  /** A line that ends inside `front` leaves all of `back` unread. */
  lemma LineWithin(front: string, back: string)
    requires front != "" && front[|front| - 1] == '\n'
    ensures var r := ReadLine(front + back); r.Done? && |r.rest| >= |back|
  {
    var s := front + back;
    assert s[|front| - 1] == '\n';
    var i := Find(s, '\n');
    assert forall k :: 0 <= k < i ==> s[k] == s[..i][k] && s[..i][k] != '\n';
  }

  lemma BulkIsLonger(payload: string)
    ensures |Bulk(payload)| > |payload| + 2
  {
    hide Itoa;
  }

  /** A part that starts inside an earlier text cannot both show the payload and end where it does. */
  lemma NeverThePayload(front: string, payload: string, suffix: string, arrives: Arrivals)
    requires front != "" && front[|front| - 1] == '\n'
    ensures ReadPart(front + (Bulk(payload) + suffix), arrives) != Done(payload, suffix)
  {
    hide ReadLine, Bulk, Atoi;
    var back := Bulk(payload) + suffix;
    BulkIsLonger(payload);
    if |front| > 1 {
      LineWithin(front[1..], back);
      assert (front + back)[1..] == front[1..] + back;
    }
  }

  /** The first part of a frame, read short, never leads to a message. */
  lemma VerbCutShort(after: string, arrives: Arrivals, count: nat)
    requires !Together(Text("message"), after, arrives) && count > 1
    ensures var r := ReadParts(Bulk("message") + after, count, arrives);
      r.Done? ==> r.value[0] != "message" && !IsControl(r.value[0])
  {
    ShortRead("message", after, arrives);
    BulkIsRead("message", after, arrives);
    var n := FirstRead("message", after, arrives);
    hide Bulk, ReadPart, Together, FirstRead;
    var s := Bulk("message") + after;
    PartsStep(s, count, arrives);
    var first := ReadPart(s, arrives);
    PartsStep(first.rest, count - 1, arrives);
    PaddedVerb(n);
  }

  lemma PaddedVerb(n: nat)
    ensures !IsControl(Padded("message", n))
  {
    ControlsDiffer();
    assert |"message"| == 7 && |"subscribe"| == 9 && |"psubscribe"| == 10 && |"pong"| == 4;
    assert |Padded("message", n)| == 7;
  }

  /** A published frame is read back, and nothing more is consumed, exactly when its verb,
      its channel and its payload each arrive in one Read. */
  lemma FrameRoundTrip(channel: string, payload: string, suffix: string, arrives: Arrivals)
    requires |channel| + 2 <= MAX_INT && |payload| + 2 <= MAX_INT
    ensures ReadMessage(Frame(channel, payload) + suffix, arrives) == Done(payload, suffix)
       <==> Whole(MessageParts(channel, payload), suffix, arrives)
  {
    hide Bulk, ReadPart, ReadParts, Together, Frame, ReadArray, Whole, IsControl;
    var last := Bulk(payload) + suffix;
    var middle := Bulk(channel) + last;
    var s := Bulk("message") + middle;
    FrameIsRead(channel, payload, suffix, arrives);
    FrameByParts(channel, payload, suffix, arrives);
    ControlsDiffer();
    PartsStep(s, 3, arrives);
    if !Together(Text("message"), middle, arrives) {
      VerbCutShort(middle, arrives, 3);
    } else {
      BulkRoundTrip("message", middle, arrives);
      PartsStep(middle, 2, arrives);
      ChannelAndPayload(channel, payload, suffix, arrives);
    }
  }

  lemma ChannelAndPayload(channel: string, payload: string, suffix: string, arrives: Arrivals)
    requires |channel| + 2 <= MAX_INT && |payload| + 2 <= MAX_INT
    ensures var r := ReadParts(Bulk(channel) + (Bulk(payload) + suffix), 2, arrives);
      (r.Done? && r.value[1] == payload && r.rest == suffix)
      <==> (Together(Text(channel), Bulk(payload) + suffix, arrives) && Together(Text(payload), suffix, arrives))
  {
    hide Bulk, ReadPart, Together, FirstRead;
    var last := Bulk(payload) + suffix;
    var middle := Bulk(channel) + last;
    PartsStep(middle, 2, arrives);
    var first := ReadPart(middle, arrives);
    BulkIsRead(channel, last, arrives);
    PartsStep(first.rest, 1, arrives);
    if Together(Text(channel), last, arrives) {
      BulkRoundTrip(channel, last, arrives);
      BulkRoundTrip(payload, suffix, arrives);
    } else {
      var n := FirstRead(channel, last, arrives);
      NeverThePayload((channel + CRLF)[n..], payload, suffix, arrives);
    }
  }

  // ---- streams of messages and control replies ----

  datatype Item = Message(channel: string, payload: string) | Control(verb: string, more: seq<Part>)

  function ItemParts(item: Item): seq<Part> {
    match item
    case Message(channel, payload) => MessageParts(channel, payload)
    case Control(verb, more) => [Text(verb)] + more
  }

  /** "" for a control reply, as for an empty message. */
  function ItemPayload(item: Item): string {
    match item
    case Message(channel, payload) => payload
    case Control(verb, more) => ""
  }

  ghost predicate Sendable(item: Item) {
    AllFit(ItemParts(item)) && (item.Control? ==> IsControl(item.verb))
  }

  function Stream(items: seq<Item>): string {
    if items == [] then "" else Array(ItemParts(items[0])) + Stream(items[1..])
  }

  /** What was published: of every message that is not empty, the signal it decodes to, if any;
      of a control reply nothing. */
  function Signals<T>(items: seq<Item>, decode: string -> Option<T>): seq<T> {
    if items == [] then []
    else Published(items[0], decode) + Signals(items[1..], decode)
  }

  function Published<T>(item: Item, decode: string -> Option<T>): seq<T> {
    match item
    case Message(channel, payload) =>
      if payload != "" && decode(payload).Some? then [decode(payload).value] else []
    case Control(verb, more) => []
  }

  lemma PublishedIsReceived<T>(item: Item, decode: string -> Option<T>)
    ensures Signal(ItemPayload(item), decode) == Published(item, decode)
  {
  }

  ghost predicate WholeStream(items: seq<Item>, arrives: Arrivals) {
    items != [] ==> Whole(ItemParts(items[0]), Stream(items[1..]), arrives) && WholeStream(items[1..], arrives)
  }

  lemma ItemRoundTrip(item: Item, suffix: string, arrives: Arrivals)
    requires Sendable(item) && Whole(ItemParts(item), suffix, arrives)
    ensures ReadMessage(Array(ItemParts(item)) + suffix, arrives) == Done(ItemPayload(item), suffix)
  {
    ArrayRoundTrip(ItemParts(item), suffix, arrives);
    ControlsDiffer();
    hide ReadArray, Array, Whole, IsControl, AllFit;
    var shown := AllShown(ItemParts(item));
    match item {
      case Message(channel, payload) =>
        assert shown[0] == "message" && shown[2] == payload;
      case Control(verb, more) =>
        assert shown[0] == verb;
    }
  }

  /** From a stream of messages and control replies, each of whose texts arrives in one
      Read, a subscriber receives the signals that were published, in order, and no others. */
  lemma {:induction false} StreamRoundTrip<T>(items: seq<Item>, arrives: Arrivals, decode: string -> Option<T>)
    requires forall item :: item in items ==> Sendable(item)
    requires WholeStream(items, arrives)
    ensures Received(Stream(items), arrives, decode) == Signals(items, decode)
  {
    hide Array, ReadMessage, Sendable, Signal, Whole, ItemParts, ItemPayload, Received, Published;
    ReceivedStep(Stream(items), arrives, decode);
    if items == [] {
      NothingToRead(arrives);
    } else {
      ItemRoundTrip(items[0], Stream(items[1..]), arrives);
      PublishedIsReceived(items[0], decode);
      StreamRoundTrip(items[1..], arrives, decode);
    }
  }

  lemma NothingToRead(arrives: Arrivals)
    ensures ReadMessage("", arrives).Error?
  {
  }

  /** Each message read, and what was left unread after it. */
  function Reads(s: string, arrives: Arrivals): seq<Read<string>>
    decreases |s|
  {
    match ReadMessage(s, arrives)
    case Done(payload, rest) => [Done(payload, rest)] + Reads(rest, arrives)
    case _ => []
  }

  /** Each payload sent, and what was sent after it. */
  function Sends(items: seq<Item>): seq<Read<string>> {
    if items == [] then [] else [Done(ItemPayload(items[0]), Stream(items[1..]))] + Sends(items[1..])
  }

  lemma ReadsStep(s: string, arrives: Arrivals)
    ensures Reads(s, arrives) ==
      match ReadMessage(s, arrives)
      case Done(payload, rest) => [Done(payload, rest)] + Reads(rest, arrives)
      case _ => []
  {
    hide ReadMessage;
  }

  lemma MessageRoundTrip(item: Item, suffix: string, arrives: Arrivals)
    requires item.Message? && Sendable(item)
    ensures ReadMessage(Array(ItemParts(item)) + suffix, arrives) == Done(ItemPayload(item), suffix)
       <==> Whole(ItemParts(item), suffix, arrives)
  {
    assert Fits(ItemParts(item)[1]) && Fits(ItemParts(item)[2]);
    FrameRoundTrip(item.channel, item.payload, suffix, arrives);
    hide ReadMessage, Array, Whole;
  }

  /** From a stream of messages each is read as it was sent and up to where it ends exactly
      when every one of their texts arrives in one Read. */
  lemma {:induction false} StreamReadExactly(items: seq<Item>, arrives: Arrivals)
    requires forall item :: item in items ==> item.Message? && Sendable(item)
    ensures Reads(Stream(items), arrives) == Sends(items) <==> WholeStream(items, arrives)
  {
    hide Array, ReadMessage, Sendable, Whole, ItemParts, ItemPayload, Reads;
    ReadsStep(Stream(items), arrives);
    if items == [] {
      NothingToRead(arrives);
    } else {
      var rest := Stream(items[1..]);
      MessageRoundTrip(items[0], rest, arrives);
      StreamReadExactly(items[1..], arrives);
      assert Sends(items)[0] == Done(ItemPayload(items[0]), rest) && Sends(items)[1..] == Sends(items[1..]);
      if Whole(ItemParts(items[0]), rest, arrives) {
        assert Reads(Stream(items), arrives)[1..] == Reads(rest, arrives);
      }
    }
  }

  predicate StartsArray(s: string) {
    s != "" && s[0] == '*'
  }

  lemma CutShortIsRead(channel: string, payload: string, suffix: string, arrives: Arrivals)
    requires |channel| + 2 <= MAX_INT && |payload| + 2 <= MAX_INT
    requires Together(Text("message"), Bulk(channel) + (Bulk(payload) + suffix), arrives)
    requires Together(Text(channel), Bulk(payload) + suffix, arrives)
    ensures var n := FirstRead(payload, suffix, arrives);
      ReadMessage(Frame(channel, payload) + suffix, arrives) == Done(Padded(payload, n), (payload + CRLF)[n..] + suffix)
  {
    hide Bulk, ReadPart, ReadParts, Together, Frame, ReadArray, IsControl, Padded, FirstRead;
    var last := Bulk(payload) + suffix;
    var middle := Bulk(channel) + last;
    FrameIsRead(channel, payload, suffix, arrives);
    ControlsDiffer();
    PartsStep(Bulk("message") + middle, 3, arrives);
    BulkRoundTrip("message", middle, arrives);
    PartsStep(middle, 2, arrives);
    BulkRoundTrip(channel, last, arrives);
    PartsStep(last, 1, arrives);
    BulkIsRead(payload, suffix, arrives);
    var rest := (payload + CRLF)[FirstRead(payload, suffix, arrives)..] + suffix;
    assert ReadParts(rest, 0, arrives) == Done([], rest) by {
      NoParts(rest, arrives);
    }
  }

  lemma NoParts(s: string, arrives: Arrivals)
    ensures ReadParts(s, 0, arrives) == Done([], s)
  {
  }

  /** A payload cut short by one Read, unless the rest of it happens to start an array,
      is delivered with zeros for what is missing, and nothing after it ever arrives. */
  lemma CutShortSilences<T>(channel: string, payload: string, suffix: string, arrives: Arrivals, decode: string -> Option<T>)
    requires |channel| + 2 <= MAX_INT && |payload| + 2 <= MAX_INT
    requires Together(Text("message"), Bulk(channel) + (Bulk(payload) + suffix), arrives)
    requires Together(Text(channel), Bulk(payload) + suffix, arrives)
    requires !Together(Text(payload), suffix, arrives)
    requires !StartsArray((payload + CRLF)[FirstRead(payload, suffix, arrives)..])
    ensures Received(Frame(channel, payload) + suffix, arrives, decode)
         == Signal(Padded(payload, FirstRead(payload, suffix, arrives)), decode)
  {
    hide Bulk, Together, Frame, ReadMessage, Padded, Received, Signal, FirstRead, ReadPart;
    var n := FirstRead(payload, suffix, arrives);
    CutShortIsRead(channel, payload, suffix, arrives);
    BulkIsRead(payload, suffix, arrives);
    var left := (payload + CRLF)[n..];
    assert left != "" && (left + suffix)[0] == left[0];
    NotAnArray(left + suffix, arrives);
    ReceivedStep(Frame(channel, payload) + suffix, arrives, decode);
    ReceivedStep(left + suffix, arrives, decode);
  }

  lemma NotAnArray(s: string, arrives: Arrivals)
    requires !StartsArray(s)
    ensures ReadMessage(s, arrives).Error?
  {
    hide ReadParts, ReadNumber;
  }

  /** All that is left is at hand, but for one Read that gets a single byte. */
  function FirstByteAlone(remaining: nat): Arrivals {
    rem => if rem == remaining then 1 else rem
  }

  /** Concretely: of payload xy one byte arrives first, and the subscriber gets x and a zero. */
  lemma OneByteFirst<T>(suffix: string, decode: string -> Option<T>)
    ensures var s, arrives := Frame("c", "xy") + suffix, FirstByteAlone(|suffix| + 4);
      && ReadMessage(s, arrives) != Done("xy", suffix)
      && Received(s, arrives, decode) == Signal("x\0", decode)
  {
    hide Frame, ReadMessage, Received, Signal, Whole, Bulk;
    var arrives := FirstByteAlone(|suffix| + 4);
    BulkIsLonger("xy");
    BulkIsLonger("c");
    FrameRoundTrip("c", "xy", suffix, arrives);
    FrameByParts("c", "xy", suffix, arrives);
    assert FirstRead("xy", suffix, arrives) == 1;
    assert "xy"[..1] + Zeros(1) == "x\0";
    assert ("xy" + CRLF)[1..][0] == 'y';
    CutShortSilences("c", "xy", suffix, arrives, decode);
  }

  const SPLIT_NAME := "x$4\r\n"
  const LATER := "\r\n:1"

  /** The rest of the name, taken for a part, runs up to the end of the reply. */
  lemma SplitNameContinues()
    ensures |SPLIT_NAME| == 5 && |LATER| == 4
    ensures (SPLIT_NAME + CRLF)[1..] + Sent(Number(1)) == Bulk(LATER) && |Sent(Number(1))| == 4
  {
    assert Itoa(4) == "4" && Itoa(1) == "1";
  }

  /** A short read of `name` that a later part makes up for. */
  lemma NameCutShort(verb: string, name: string, number: Part, later: string, suffix: string)
    requires |verb| < 100 && |name| == 5 && |Sent(number)| == 4 && |later| == 4
    requires (name + CRLF)[1..] + Sent(number) == Bulk(later)
    ensures var arrives := FirstByteAlone(|suffix| + 11);
      var last := Sent(number) + suffix;
      && ReadParts(Bulk(verb) + (Bulk(name) + last), 3, arrives) == Done([verb, Padded(name, 1), later], suffix)
      && !Together(Text(name), last, arrives)
  {
    hide ReadPart, ReadParts, Bulk, Padded, Sent;
    var arrives := FirstByteAlone(|suffix| + 11);
    var last := Sent(number) + suffix;
    var left := (name + CRLF)[1..];
    BulkIsLonger(name);
    BulkRoundTrip(verb, Bulk(name) + last, arrives);
    PartsStep(Bulk(verb) + (Bulk(name) + last), 3, arrives);
    BulkIsRead(name, last, arrives);
    PartsStep(Bulk(name) + last, 2, arrives);
    assert left + last == left + Sent(number) + suffix;
    assert FirstRead(name, last, arrives) == 1;
    BulkRoundTrip(later, suffix, arrives);
    PartsStep(Bulk(later) + suffix, 1, arrives);
    NoParts(suffix, arrives);
    assert [later] + [] == [later] && [Padded(name, 1)] + [later] == [Padded(name, 1), later];
    assert [verb] + [Padded(name, 1), later] == [verb, Padded(name, 1), later];
    assert ReadParts(Bulk(later) + suffix, 1, arrives) == Done([later], suffix);
    assert ReadParts(Bulk(name) + last, 2, arrives) == Done([Padded(name, 1), later], suffix);
  }

  /** The three parts of a reply, one after another. */
  lemma ReplyByParts(verb: string, name: string, number: Part, suffix: string, arrives: Arrivals)
    ensures var parts := [Text(verb)] + ([Text(name)] + ([number] + []));
      && AllSent(parts) + suffix == Bulk(verb) + (Bulk(name) + (Sent(number) + suffix))
      && (Whole(parts, suffix, arrives) ==> Together(Text(name), Sent(number) + suffix, arrives))
  {
    hide Bulk, Together, AllSent, Whole;
    FirstSent(number, [], suffix, arrives);
    FirstSent(Text(name), [number] + [], suffix, arrives);
    FirstSent(Text(verb), [Text(name)] + ([number] + []), suffix, arrives);
  }

  lemma ReplyCutShort(verb: string, name: string, number: Part, later: string, suffix: string)
    requires |verb| < 100 && |name| == 5 && |Sent(number)| == 4 && |later| == 4 && IsControl(verb)
    requires (name + CRLF)[1..] + Sent(number) == Bulk(later)
    ensures var parts := ItemParts(Control(verb, [Text(name), number]));
      var arrives := FirstByteAlone(|suffix| + 11);
      ReadMessage(Array(parts) + suffix, arrives) == Done("", suffix) && !Whole(parts, suffix, arrives)
  {
    hide ReadParts, ReadArray, Array, Together, Bulk, Sent, AllSent, Whole, IsControl, Padded;
    var parts := ItemParts(Control(verb, [Text(name), number]));
    var arrives := FirstByteAlone(|suffix| + 11);
    assert parts == [Text(verb)] + ([Text(name)] + ([number] + []));
    ReplyByParts(verb, name, number, suffix, arrives);
    NameCutShort(verb, name, number, later, suffix);
    ArrayIsRead(parts, suffix, arrives);
  }

  /** A control reply has no such converse: of one whose channel is SPLIT_NAME, read short,
      the rest of the name reads as the part after it, and nothing shows. */
  lemma CutShortUnnoticed(suffix: string)
    ensures var reply := Control("subscribe", [Text(SPLIT_NAME), Number(1)]);
      var arrives := FirstByteAlone(|suffix| + 11);
      && Sendable(reply)
      && ReadMessage(Array(ItemParts(reply)) + suffix, arrives) == Done("", suffix)
      && !Whole(ItemParts(reply), suffix, arrives)
  {
    hide ReadMessage, Array, Bulk, Sent, AllSent, Whole, Itoa, Sendable;
    SplitNameContinues();
    SplitReplyFits();
    ReplyCutShort("subscribe", SPLIT_NAME, Number(1), LATER, suffix);
  }

  lemma SplitReplyFits()
    ensures Sendable(Control("subscribe", [Text(SPLIT_NAME), Number(1)]))
  {
  }
}
