/**
 * How the layers share the request body, and what the audit layer keeps of the response. Every
 * layer that looks at the body reads it, up to a limit, and puts back what it read.
 */
module Bodies {
  import opened Glob

  /** 64 KiB. */
  const LIMIT: nat := 65536

  function First(data: Bytes, n: nat): (r: Bytes)
    ensures |r| <= n
  {
    if |data| <= n then data else data[..n]
  }

  /** How a stream ends: properly, or with an error, which a read reports after the last bytes or
      together with them. */
  datatype Ending = Proper | ErrorAfter | ErrorWithLast

  /** A request body: absent, a stream, or closed by a failed read. */
  datatype Body = Absent | Stream(data: Bytes, ending: Ending) | Closed

  /** A bounded read of the body meets no error: one past the limit is never reached. */
  predicate Readable(body: Body) {
    body.Stream? &&
    match body.ending
    case Proper => true
    case ErrorAfter => |body.data| >= LIMIT
    case ErrorWithLast => |body.data| > LIMIT
  }

  /** What a layer sees. */
  function Seen(body: Body): Bytes {
    if Readable(body) then First(body.data, LIMIT) else []
  }

  /** What it leaves to the next layer. */
  function Restored(body: Body): Body {
    if Readable(body) then Stream(Seen(body), Proper) else if body.Absent? then Absent else Closed
  }

  class Request {
    var body: Body

    constructor (body: Body)
      ensures this.body == body
    {
      this.body := body;
    }

    /** sizes says how many bytes each read of the stream would like to deliver. */
    method ReadAndRestore(sizes: nat -> nat) returns (seen: Bytes)
      modifies this
      ensures seen == Seen(old(body)) && body == Restored(old(body))
      ensures old(body).Absent? ==> seen == [] && body.Absent?
      ensures old(body).Stream? && (old(body).ending.Proper? || |old(body).data| > 65536) ==>
                && body == Stream(seen, Proper) && seen <= old(body).data
                && |seen| == if |old(body).data| < 65536 then |old(body).data| else 65536
      ensures old(body).Stream? && !old(body).ending.Proper? && |old(body).data| < 65536 ==> seen == [] && body.Closed?
      ensures old(body).Stream? && |old(body).data| == 65536 ==>
                if old(body).ending.ErrorWithLast? then seen == [] && body.Closed?
                else seen == old(body).data && body == Stream(seen, Proper)
      ensures old(body).Closed? ==> seen == [] && body.Closed?
    {
      if body.Absent? {
        return [];
      }
      if body.Closed? {
        return [];
      }
      var data, rest, turn := [], body.data, 0;
      while |data| < LIMIT && |rest| > 0
        invariant data + rest == body.data && |data| <= LIMIT
        invariant |rest| > 0 || body.data == [] || !body.ending.ErrorWithLast?
        decreases |rest|
      {
        var most := if |rest| < LIMIT - |data| then |rest| else LIMIT - |data|;
        var n := if sizes(turn) < 1 then 1 else if sizes(turn) > most then most else sizes(turn);
        assert data + rest[..n] + rest[n..] == data + rest;
        data, rest, turn := data + rest[..n], rest[n..], turn + 1;
        if |rest| == 0 && body.ending.ErrorWithLast? {
          body := Closed;
          return [];
        }
      }
      if |data| < LIMIT && !body.ending.Proper? {
        body := Closed;
        return [];
      }
      body := Stream(data, Proper);
      seen := data;
    }
  }

  /** The body after so many layers have read it. */
  function AfterReads(body: Body, layers: nat): Body {
    if layers == 0 then body else Restored(AfterReads(body, layers - 1))
  }

  /** Every layer sees the same bytes as the first, and what reaches the proxy behind at least one
      layer is exactly that: the first 64 KiB of the body, however it arrives. If the first read
      fails, all see nothing and the proxy finds the body closed. */
  lemma {:induction false} LayersSeeTheSame(body: Body, layers: nat)
    ensures Seen(AfterReads(body, layers)) == Seen(body)
    ensures layers > 0 && Readable(body) ==> AfterReads(body, layers) == Stream(First(body.data, LIMIT), Proper)
    ensures layers > 0 && body.Stream? && !Readable(body) ==> AfterReads(body, layers) == Closed
  {
    if layers > 0 {
      LayersSeeTheSame(body, layers - 1);
    }
  }

  // ---------------------------------------------------------------- the tool of a call

  /** The fields of a decoded JSON-RPC request that the layers use. Decoding is a parameter. */
  datatype Decoded = Invalid | Call(verb: Bytes, name: Bytes)

  const TOOLS_CALL: Bytes := Text("tools/call")
  const TOOL_PREFIX: Bytes := Text("tool:")
  const EXECUTE: Bytes := Text("execute")

  predicate IsToolCall(d: Decoded) {
    d.Call? && d.verb == TOOLS_CALL && d.name != []
  }

  /** The resource and action that the permission layer judges; empty when there is nothing to judge. */
  function ResourceAction(d: Decoded): (Bytes, Bytes) {
    if IsToolCall(d) then (TOOL_PREFIX + d.name, EXECUTE) else ([], [])
  }

  /** The tool name that the audit layer logs. */
  function ToolName(d: Decoded): Bytes {
    if d.Invalid? then [] else if IsToolCall(d) then d.name else d.verb
  }

  /** A request judged by the permission layer is logged under the tool that was judged, whatever
      layers read the body in between; any other request is not judged, and is logged under its method,
      or under nothing when it cannot be decoded. */
  lemma JudgedToolIsLogged(body: Body, layers: nat, decode: Bytes -> Decoded)
    ensures var judged := ResourceAction(decode(Seen(body)));
            var logged := ToolName(decode(Seen(AfterReads(body, layers))));
            && (judged.0 != [] ==> judged == (TOOL_PREFIX + logged, EXECUTE))
            && (judged.0 == [] <==> forall name :: name != [] ==> decode(Seen(body)) != Call(TOOLS_CALL, name))
            && (forall name :: name != [] && decode(Seen(body)) == Call(Text("tools/call"), name) ==>
                  judged == (Text("tool:") + name, Text("execute")) && logged == name)
            && (forall verb, name :: decode(Seen(body)) == Call(verb, name) && judged.0 == [] ==> logged == verb)
            && (decode(Seen(body)) == Invalid ==> judged.0 == [] && logged == [])
  {
    LayersSeeTheSame(body, layers);
  }

  // ---------------------------------------------------------------- the response

  /** The captured bytes after one more write. */
  function Capture(captured: Bytes, b: Bytes): Bytes {
    if |captured| < LIMIT then captured + First(b, LIMIT - |captured|) else captured
  }

  class ResponseCapture {
    /** The captured part. */
    var captured: Bytes
    /** Everything the handler wrote. */
    ghost var offered: Bytes
    /** What the client's connection took of it. */
    var sent: Bytes
    var status: int

    ghost predicate Valid()
      reads this
    {
      captured == First(offered, LIMIT)
    }

    constructor ()
      ensures Valid() && offered == [] && sent == [] && status == 200
    {
      captured, offered, sent, status := [], [], [], 200;
    }

    method WriteHeader(code: int)
      modifies this
      ensures status == code && sent == old(sent) && offered == old(offered) && captured == old(captured)
    {
      status := code;
    }

    /** taken is how many of the bytes the connection takes before it fails, if it does. */
    method Write(b: Bytes, taken: nat) returns (n: nat)
      requires Valid() && taken <= |b|
      modifies this
      ensures Valid() && offered == old(offered) + b && captured == Capture(old(captured), b)
      ensures n == taken && sent == old(sent) + b[..taken] && status == old(status)
    {
      if |captured| < LIMIT {
        var remaining := LIMIT - |captured|;
        if |b| > remaining {
          captured := captured + b[..remaining];
        } else {
          captured := captured + b;
        }
      }
      offered := offered + b;
      sent := sent + b[..taken];
      n := taken;
    }
  }

  function Joined(writes: seq<Bytes>): Bytes {
    if writes == [] then [] else Joined(writes[..|writes| - 1]) + writes[|writes| - 1]
  }

  function CapturedFrom(writes: seq<Bytes>): Bytes {
    if writes == [] then [] else Capture(CapturedFrom(writes[..|writes| - 1]), writes[|writes| - 1])
  }

  /** However a response is cut into writes, its first 64 KiB are captured. */
  lemma {:induction false} CaptureIsFirst(writes: seq<Bytes>)
    ensures CapturedFrom(writes) == First(Joined(writes), LIMIT)
    decreases |writes|
  {
    if writes != [] {
      CaptureIsFirst(writes[..|writes| - 1]);
    }
  }
}
