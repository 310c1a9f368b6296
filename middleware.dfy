/**
 * The multipart middleware: the factory's options, the guards that decide
 * whether a request is parsed, and the per-request state that the form's
 * `field`, `file`, `error` and `close` events update, with the single call
 * to `next` each request gets and the deletions scheduled for when the
 * response finishes.
 */
module MultipartMiddleware {
  import opened Values
  import opened Aggregate
  import opened Cleanup

  /** The request object, as far as the middleware reads and writes it. */
  class Request {
    /** The HTTP method, `req.method`. */
    const verb: string
    /** Whether the Content-Type matches multipart/form-data. */
    const isMultipart: bool
    /** Whether `req._body` is truthy: some body parser has already run. */
    var marked: bool
    /** `req.body`; None stands for undefined. */
    var body: Option<Node>
    /** `req.files`; None stands for undefined. */
    var files: Option<Node>
    /** Whether the request stream still has unread data. */
    var readable: bool
    /** Whether the middleware has resumed the stream to drain it. */
    var resumed: bool

    constructor(verb: string, isMultipart: bool, marked: bool,
                body: Option<Node>, files: Option<Node>, readable: bool)
      ensures this.verb == verb && this.isMultipart == isMultipart
      ensures this.marked == marked && this.body == body && this.files == files
      ensures this.readable == readable && !resumed
    {
      this.verb := verb;
      this.isMultipart := isMultipart;
      this.marked := marked;
      this.body := body;
      this.files := files;
      this.readable := readable;
      resumed := false;
    }
  }

  /** `v || {}`: the value when it is truthy, a fresh empty object otherwise. */
  function OrEmpty(v: Option<Node>): Node
  {
    if v.Some? && NodeTruthy(v.value) then v.value else Obj(map[])
  }

  /** A call to `next`: `next()` or `next(err)`. */
  datatype Call = Proceed | Fail(err: Error)

  /**
   * What can happen to a request being parsed: the tokenizer's four events,
   * the request stream finishing, and the response finishing.
   */
  datatype Event =
    | FieldEvent(name: string, value: string)
    | FileEvent(name: string, part: Part)
    | ErrorEvent(err: Error)
    | CloseEvent
    | RequestEnd
    | ResponseFinish

  /** The events that end parsing. */
  predicate Terminal(e: Event)
  {
    e.ErrorEvent? || e.CloseEvent?
  }

  /** What a field event hands the field aggregator. */
  function FieldArrival(e: Event): seq<(string, Value)>
  {
    if e.FieldEvent? then [(e.name, Text(e.value))] else []
  }

  /** What a file event hands the file aggregator, after normalisation. */
  function FileArrival(e: Event): seq<(string, Value)>
  {
    if e.FileEvent? then [(e.name, File(Normalise(e.part)))] else []
  }

  /** The index of the first `error` or `close` among `events`, if there is one. */
  function FirstTerminal(events: seq<Event>): (r: Option<nat>)
    ensures r.Some? ==> r.value < |events| && Terminal(events[r.value])
    ensures r.Some? ==> forall k :: 0 <= k < r.value ==> !Terminal(events[k])
    ensures r.None? ==> forall k :: 0 <= k < |events| ==> !Terminal(events[k])
    decreases |events|
  {
    if events == [] then None
    else
      var earlier := FirstTerminal(events[..|events| - 1]);
      if earlier.Some? then earlier
      else if Terminal(events[|events| - 1]) then Some(|events| - 1)
      else None
  }

  /** One more event: the first terminal stays, or is this event if it is one. */
  lemma FirstTerminalStep(events: seq<Event>, i: nat)
    requires i < |events|
    ensures FirstTerminal(events[..i + 1]) ==
      if FirstTerminal(events[..i]).Some? then FirstTerminal(events[..i])
      else if Terminal(events[i]) then Some(i) else None
  {
    assert events[..i + 1][..i] == events[..i];
  }

  /** Whether the request stream's end is among `events`. */
  predicate AnyEnd(events: seq<Event>)
  {
    exists k :: 0 <= k < |events| && events[k].RequestEnd?
  }

  /** How many times the response finishes among the events from index `j` on. */
  function FinishesFrom(events: seq<Event>, j: nat): nat
    decreases |events|
  {
    if |events| <= j then 0
    else FinishesFrom(events[..|events| - 1], j) + if events[|events| - 1].ResponseFinish? then 1 else 0
  }

  /** One more event: the stream has ended if it had or this is its end. */
  lemma EndStep(events: seq<Event>, i: nat)
    requires i < |events|
    ensures AnyEnd(events[..i + 1]) == (AnyEnd(events[..i]) || events[i].RequestEnd?)
  {
    if AnyEnd(events[..i + 1]) && !events[i].RequestEnd? {
      var k :| 0 <= k < i + 1 && events[..i + 1][k].RequestEnd?;
      assert events[..i][k].RequestEnd?;
    }
  }

  /** One more event: a finish at or after index `j` counts once more. */
  lemma FinishStep(events: seq<Event>, i: nat, j: nat)
    requires i < |events|
    ensures FinishesFrom(events[..i + 1], j) ==
      FinishesFrom(events[..i], j) + if j <= i && events[i].ResponseFinish? then 1 else 0
  {
    assert events[..i + 1][..i] == events[..i];
  }

  /** `s` repeated `n` times. */
  function Repeat(s: seq<string>, n: nat): seq<string>
  {
    if n == 0 then [] else Repeat(s, n - 1) + s
  }

  /** Deleting once more appends one more round of deletions. */
  lemma RepeatStep(u0: seq<string>, s: seq<string>, n: nat)
    ensures u0 + Repeat(s, n) + s == u0 + Repeat(s, n + 1)
  {
    assert u0 + Repeat(s, n) + s == u0 + (Repeat(s, n) + s);
  }

  /** The field values among `events`, as the aggregator receives them. */
  function FieldArrivals(events: seq<Event>): seq<(string, Value)>
    decreases |events|
  {
    if events == [] then []
    else FieldArrivals(events[..|events| - 1]) + FieldArrival(events[|events| - 1])
  }

  /** The normalised files among `events`, as the aggregator receives them. */
  function FileArrivals(events: seq<Event>): seq<(string, Value)>
    decreases |events|
  {
    if events == [] then []
    else FileArrivals(events[..|events| - 1]) + FileArrival(events[|events| - 1])
  }

  /** The arrivals of one more event extend those of the events before it. */
  lemma ArrivalsStep(events: seq<Event>, i: nat)
    requires i < |events|
    ensures FieldArrivals(events[..i + 1]) == FieldArrivals(events[..i]) + FieldArrival(events[i])
    ensures FileArrivals(events[..i + 1]) == FileArrivals(events[..i]) + FileArrival(events[i])
  {
    assert events[..i + 1][..i] == events[..i];
  }

  /** The dictionaries after one more event: a field or a file adds its value, anything else nothing. */
  lemma FoldStep(events: seq<Event>, i: nat, data0: FlatMap, fileData0: FlatMap)
    requires i < |events|
    ensures AddAll(data0, FieldArrivals(events[..i + 1])) ==
      if events[i].FieldEvent? then AddValue(AddAll(data0, FieldArrivals(events[..i])), events[i].name, Text(events[i].value))
      else AddAll(data0, FieldArrivals(events[..i]))
    ensures AddAll(fileData0, FileArrivals(events[..i + 1])) ==
      if events[i].FileEvent? then AddValue(AddAll(fileData0, FileArrivals(events[..i])), events[i].name, File(Normalise(events[i].part)))
      else AddAll(fileData0, FileArrivals(events[..i]))
  {
    ArrivalsStep(events, i);
    AddAllStep(data0, FieldArrivals(events[..i]), FieldArrival(events[i]));
    AddAllStep(fileData0, FileArrivals(events[..i]), FileArrival(events[i]));
  }

  /** A response finish adds no arrival, no terminal event and no end of the request. */
  lemma FinishIsQuiet(events: seq<Event>, i: nat)
    requires i < |events| && events[i].ResponseFinish?
    ensures FieldArrivals(events[..i + 1]) == FieldArrivals(events[..i])
    ensures FileArrivals(events[..i + 1]) == FileArrivals(events[..i])
    ensures FirstTerminal(events[..i + 1]) == FirstTerminal(events[..i])
    ensures AnyEnd(events[..i + 1]) == AnyEnd(events[..i])
  {
    ArrivalsStep(events, i);
    FirstTerminalStep(events, i);
    EndStep(events, i);
  }

  /**
   * The query-string decoder that expands bracketed names into a tree; it
   * always yields an object, or throws.
   */
  type Decoder = FlatMap -> Result<map<string, Node>>

  /** The middleware the factory returns, with the options it closes over. */
  class Multipart {
    const deleteOnFinish: DeleteOption
    const parse: Decoder

    constructor(deleteOnFinish: DeleteOption, parse: Decoder)
      ensures this.deleteOnFinish == deleteOnFinish && this.parse == parse
    {
      this.deleteOnFinish := deleteOnFinish;
      this.parse := parse;
    }

    /**
     * The guards run when the middleware is invoked on a request. A request
     * already parsed passes through untouched. Otherwise `body` and `files`
     * default to empty objects; GET and HEAD requests and requests that are
     * not multipart then pass through, and the rest are marked as parsed
     * and handed to the form.
     */
    method Handle(req: Request) returns (inv: Invocation)
      modifies req`marked, req`body, req`files
      ensures fresh(inv) && inv.req == req && inv.Valid()
      ensures inv.deleteOnFinish == deleteOnFinish && inv.parse == parse
      ensures inv.parsing <==>
        !old(req.marked) && req.verb != "GET" && req.verb != "HEAD" && req.isMultipart
      ensures inv.calls == if inv.parsing then [] else [Proceed]
      ensures inv.data == map[] && inv.files == map[] && !inv.done
      ensures inv.waiting == None && inv.finishList == [] && inv.unlinked == [] && !inv.escaped
      ensures req.marked == (old(req.marked) || inv.parsing)
      ensures old(req.marked) ==> req.body == old(req.body) && req.files == old(req.files)
      ensures !old(req.marked) ==>
        req.body == Some(OrEmpty(old(req.body))) && req.files == Some(OrEmpty(old(req.files)))
    {
      if req.marked {
        inv := new Invocation(req, false, deleteOnFinish, parse);
        return;
      }
      req.body := Some(OrEmpty(req.body));
      req.files := Some(OrEmpty(req.files));
      if req.verb == "GET" || req.verb == "HEAD" || !req.isMultipart {
        inv := new Invocation(req, false, deleteOnFinish, parse);
        return;
      }
      req.marked := true;
      inv := new Invocation(req, true, deleteOnFinish, parse);
    }

    /**
     * One invocation of the middleware on a request whose form then emits
     * `events`. Whatever the events, `next` is called at most once; a
     * request that is not parsed gets `next()` at once, and a parsed one
     * aggregates every field and file in arrival order. For a parsed
     * request the first `error` or `close` decides the outcome: an error
     * goes to `next` (at once or once the request has drained), and a
     * close decodes the fields and files that arrived before it.
     */
    method Process(req: Request, events: seq<Event>) returns (inv: Invocation)
      modifies req
      ensures fresh(inv) && inv.req == req && inv.Valid()
      ensures inv.deleteOnFinish == deleteOnFinish && inv.parse == parse
      ensures |inv.calls| <= 1
      ensures inv.parsing <==>
        !old(req.marked) && req.verb != "GET" && req.verb != "HEAD" && req.isMultipart
      ensures !inv.parsing ==> inv.calls == [Proceed] && req.marked == old(req.marked)
      ensures !inv.parsing ==> req.readable == old(req.readable) && req.resumed == old(req.resumed)
      ensures old(req.marked) ==> req.body == old(req.body) && req.files == old(req.files)
      ensures !old(req.marked) && !inv.parsing ==>
        req.body == Some(OrEmpty(old(req.body))) && req.files == Some(OrEmpty(old(req.files)))
      ensures inv.parsing ==> req.marked
      ensures inv.parsing ==> inv.data == AddAll(map[], FieldArrivals(events))
      ensures inv.parsing ==> inv.files == AddAll(map[], FileArrivals(events))
      ensures inv.parsing ==> inv.done == FirstTerminal(events).Some?
      ensures inv.parsing ==> req.readable == (old(req.readable) && !AnyEnd(events))
      ensures inv.parsing ==> inv.DeletedAfter(events, [], false)
      ensures inv.parsing && FirstTerminal(events).None? ==>
        && inv.calls == [] && inv.waiting == None && inv.finishList == []
        && req.body == Some(OrEmpty(old(req.body))) && req.files == Some(OrEmpty(old(req.files)))
      ensures inv.parsing && FirstTerminal(events).Some? ==>
        inv.Decided(events, FirstTerminal(events).value, map[], map[],
                    Some(OrEmpty(old(req.body))), Some(OrEmpty(old(req.files))))
    {
      ghost var readable0 := req.readable;
      inv := Handle(req);
      if inv.parsing {
        ghost var body0, files0 := req.body, req.files;
        assert body0 == Some(OrEmpty(old(req.body))) && files0 == Some(OrEmpty(old(req.files)));
        assert req.readable == readable0 && inv.data == map[] && inv.files == map[];
        inv.Run(events);
        assert req.marked;
        assert req.readable == (readable0 && !AnyEnd(events));
        assert inv.DeletedAfter(events, [], false);
      }
    }
  }

  /** The state one invocation of the middleware keeps while a form is parsed. */
  class Invocation {
    const req: Request
    /** Whether the guards let the request through to the form. */
    const parsing: bool
    const deleteOnFinish: DeleteOption
    const parse: Decoder
    /** The flat dictionary of field values. */
    var data: FlatMap
    /** The flat dictionary of uploaded files. */
    var files: FlatMap
    /** Whether an `error` or `close` event has been handled. */
    var done: bool
    /** An error held back until the request stream has been drained. */
    var waiting: Option<Error>
    /** The names to delete when the response finishes; empty when none are registered. */
    var finishList: seq<string>
    /** The calls made to `next`, in order. */
    var calls: seq<Call>
    /** The paths handed to unlink, in order. */
    var unlinked: seq<string>
    /** Whether deleting on finish has thrown out of the response's listener. */
    var escaped: bool

    /**
     * Exactly one outcome per invocation once it is decided, and none
     * before: a request that is not parsed has its one `next()`, and a
     * parsed one has, once done, either made its one call to `next` or
     * holds one error until the request is drained. Every error handed on
     * carries status 400, and an error is held only while the resumed
     * request still has data.
     */
    ghost predicate Valid()
      reads this, req
    {
      && |calls| + (if waiting.Some? then 1 else 0) == (if done || !parsing then 1 else 0)
      && (!parsing ==> !done)
      && (forall i :: 0 <= i < |calls| && calls[i].Fail? ==> calls[i].err.status == Some(400))
      && (waiting.Some? ==> waiting.value.status == Some(400) && req.readable && req.resumed)
      && (!done ==> finishList == [])
    }

    /** The calls made to `next`, followed by the error held for one, if any. */
    ghost function Outcomes(): seq<Call>
      reads this`calls, this`waiting
    {
      calls + if waiting.Some? then [Fail(waiting.value)] else []
    }

    /**
     * The invocation failed with `err`: its one outcome is `next(err)` with
     * status 400, still held exactly while the request has data left and
     * made otherwise, and `req.body`, `req.files` and the deletion list are
     * as they were before.
     */
    ghost predicate FailedWith(err: Error, body0: Option<Node>, files0: Option<Node>)
      reads this`calls, this`waiting, this`finishList, req`readable, req`body, req`files
    {
      && Outcomes() == [Fail(ClientFault(err))]
      && (waiting.Some? <==> req.readable)
      && req.body == body0 && req.files == files0 && finishList == []
    }

    /**
     * The invocation closed with the field dictionary `d` and the file
     * dictionary `f`: a field decoding failure goes to `next` and changes
     * nothing; otherwise `req.body` is the decoded fields, and then a file
     * decoding failure goes to `next`, or `req.files` becomes the decoded
     * files, the selected names are registered and `next()` is called.
     */
    ghost predicate ClosedWith(d: FlatMap, f: FlatMap, body0: Option<Node>, files0: Option<Node>)
      reads this`calls, this`waiting, this`finishList, req`body, req`files
    {
      && waiting == None
      && (parse(d).Err? ==>
            calls == [Fail(ClientFault(parse(d).error))]
            && req.body == body0 && req.files == files0 && finishList == [])
      && (parse(d).Ok? ==> req.body == Some(Obj(parse(d).value)))
      && (parse(d).Ok? && parse(f).Err? ==>
            calls == [Fail(ClientFault(parse(f).error))] && req.files == files0 && finishList == [])
      && (parse(d).Ok? && parse(f).Ok? ==>
            calls == [Proceed] && req.files == Some(Obj(parse(f).value))
            && IsSelection(deleteOnFinish, parse(f).value, finishList))
    }

    /**
     * The outcome the terminal event `events[j]` decides, for an invocation
     * that started with dictionaries `data0` and `files0` and with `req.body`
     * and `req.files` equal to `body0` and `files0'`.
     */
    ghost predicate Decided(events: seq<Event>, j: nat, data0: FlatMap, fileData0: FlatMap,
                            body0: Option<Node>, files0: Option<Node>)
      reads this`calls, this`waiting, this`finishList, req`readable, req`body, req`files
    {
      && j < |events|
      && (events[j].ErrorEvent? ==> FailedWith(events[j].err, body0, files0))
      && (events[j].CloseEvent? ==>
            ClosedWith(AddAll(data0, FieldArrivals(events[..j])), AddAll(fileData0, FileArrivals(events[..j])),
                       body0, files0))
      && (!events[j].ErrorEvent? && !events[j].CloseEvent? ==> false)
    }

    /**
     * What the response's `finish` events among `events` have deleted, from
     * `unlinked0`: when a `close` decided the outcome, each finish after it
     * deletes the registered names from `req.files` once more and throws
     * when `Throws` holds; otherwise nothing is registered, so nothing is
     * deleted.
     */
    ghost predicate DeletedAfter(events: seq<Event>, unlinked0: seq<string>, escaped0: bool)
      reads this`unlinked, this`escaped, this`finishList, req`files
    {
      var t := FirstTerminal(events);
      if t.Some? && events[t.value].CloseEvent? then Deleted(unlinked0, escaped0, FinishesFrom(events, t.value))
      else unlinked == unlinked0 && escaped == escaped0
    }

    /** The registered names have been deleted `n` times since `unlinked0`. */
    ghost predicate Deleted(unlinked0: seq<string>, escaped0: bool, n: nat)
      reads this`unlinked, this`escaped, this`finishList, req`files
    {
      && unlinked == unlinked0 + Repeat(Unlinks(finishList, req.files), n)
      && escaped == (escaped0 || (n > 0 && Throws(finishList, req.files)))
    }

    constructor(req: Request, parsing: bool, deleteOnFinish: DeleteOption, parse: Decoder)
      ensures this.req == req && this.parsing == parsing
      ensures this.deleteOnFinish == deleteOnFinish && this.parse == parse
      ensures data == map[] && files == map[] && !done && waiting == None
      ensures finishList == [] && unlinked == [] && !escaped
      ensures calls == if parsing then [] else [Proceed]
      ensures Valid()
    {
      this.req := req;
      this.parsing := parsing;
      this.deleteOnFinish := deleteOnFinish;
      this.parse := parse;
      data, files := map[], map[];
      done, waiting := false, None;
      finishList, unlinked, escaped := [], [], false;
      calls := if parsing then [] else [Proceed];
    }

    /** A field arrives: its value is added to the field dictionary only. */
    method OnField(name: string, value: string)
      requires Valid() && parsing
      modifies this`data
      ensures Valid()
      ensures data == AddValue(old(data), name, Text(value))
    {
      data := AddValue(data, name, Text(value));
    }

    /** A file arrives: it is normalised and added to the file dictionary only. */
    method OnFile(name: string, part: Part)
      requires Valid() && parsing
      modifies this`files
      ensures Valid()
      ensures files == AddValue(old(files), name, File(Normalise(part)))
    {
      var upload := Normalise(part);
      files := AddValue(files, name, File(upload));
    }

    /**
     * The form fails. Once done, this does nothing. Otherwise the error gets
     * status 400 and is handed to `next` at once when the request has no
     * more data; when it still has, the request is resumed and the error is
     * held until the request has finished.
     */
    method OnError(err: Error)
      requires Valid() && parsing
      modifies this`done, this`calls, this`waiting, req`resumed
      ensures Valid() && done
      ensures old(done) ==>
        calls == old(calls) && waiting == old(waiting) && req.resumed == old(req.resumed)
      ensures !old(done) && !req.readable ==>
        calls == old(calls) + [Fail(ClientFault(err))] && waiting == None && req.resumed == old(req.resumed)
      ensures !old(done) && req.readable ==>
        calls == old(calls) && waiting == Some(ClientFault(err)) && req.resumed
    {
      if done {
        return;
      }
      done := true;
      var fault := ClientFault(err);
      if !req.readable {
        calls := calls + [Fail(fault)];
        return;
      }
      req.resumed := true;
      waiting := Some(fault);
    }

    /** The request stream finishes: a held error is handed to `next` now. */
    method OnRequestEnd()
      requires Valid()
      modifies req`readable, this`calls, this`waiting
      ensures Valid() && !req.readable && waiting == None
      ensures calls == old(calls) + if old(waiting).Some? then [Fail(old(waiting).value)] else []
    {
      req.readable := false;
      if waiting.Some? {
        calls := calls + [Fail(waiting.value)];
        waiting := None;
      }
    }

    /**
     * The form ends. Once done, this does nothing. Otherwise both
     * dictionaries are decoded into `req.body` and `req.files`, the files to
     * delete on finish are registered and `next()` is called; a decoder
     * failure is handed to `next` with status 400 instead, and when it is
     * the files that fail, `req.body` has already been replaced.
     */
    method OnClose()
      requires Valid() && parsing
      modifies this`done, this`calls, this`finishList, req`body, req`files
      ensures Valid() && done
      ensures old(done) ==> calls == old(calls) && finishList == old(finishList)
      ensures old(done) ==> req.body == old(req.body) && req.files == old(req.files)
      ensures !old(done) && parse(data).Err? ==>
        && calls == old(calls) + [Fail(ClientFault(parse(data).error))]
        && req.body == old(req.body) && req.files == old(req.files) && finishList == []
      ensures !old(done) && parse(data).Ok? ==> req.body == Some(Obj(parse(data).value))
      ensures !old(done) && parse(data).Ok? && parse(files).Err? ==>
        && calls == old(calls) + [Fail(ClientFault(parse(files).error))]
        && req.files == old(req.files) && finishList == []
      ensures !old(done) && parse(data).Ok? && parse(files).Ok? ==>
        var decoded := parse(files).value;
        && req.files == Some(Obj(decoded))
        && calls == old(calls) + [Proceed]
        && IsSelection(deleteOnFinish, decoded, finishList)
    {
      if done {
        return;
      }
      done := true;
      var body := parse(data);
      if body.Err? {
        calls := calls + [Fail(ClientFault(body.error))];
        return;
      }
      req.body := Some(Obj(body.value));
      var decoded := parse(files);
      if decoded.Err? {
        calls := calls + [Fail(ClientFault(decoded.error))];
        return;
      }
      req.files := Some(Obj(decoded.value));
      var deleteFiles := Select(deleteOnFinish, decoded.value);
      if |deleteFiles| > 0 {
        finishList := deleteFiles;
      }
      calls := calls + [Proceed];
    }

    /**
     * The response finishes: the registered names are deleted in order. A
     * name without a truthy entry in `req.files` is skipped, and a truthy
     * entry has its path unlinked, whose failure is ignored. An entry
     * without a path (an array of files, a nested object) makes unlink
     * throw, which ends the deletions and escapes the listener.
     */
    method OnResponseFinish()
      requires Valid()
      modifies this`unlinked, this`escaped
      ensures Valid()
      ensures unlinked == old(unlinked) + Unlinks(finishList, req.files)
      ensures escaped == (old(escaped) || Throws(finishList, req.files))
    {
      var i := 0;
      while i < |finishList|
        invariant 0 <= i <= |finishList|
        invariant unlinked + Unlinks(finishList[i..], req.files) == old(unlinked) + Unlinks(finishList, req.files)
        invariant Throws(finishList, req.files) == Throws(finishList[i..], req.files)
        invariant escaped == old(escaped)
      {
        assert finishList[i..][0] == finishList[i] && finishList[i..][1..] == finishList[i + 1..];
        var entry := Lookup(req.files, finishList[i]);
        if entry.Some? && NodeTruthy(entry.value) {
          var path := PathOf(entry.value);
          if path.None? {
            escaped := true;
            return;
          }
          unlinked := unlinked + [path.value];
        }
        i := i + 1;
      }
    }

    /** One event, dispatched to its handler. */
    method Dispatch(e: Event)
      requires Valid() && parsing
      modifies this, req`resumed, req`readable, req`body, req`files
      ensures Valid()
      ensures data == if e.FieldEvent? then AddValue(old(data), e.name, Text(e.value)) else old(data)
      ensures files == if e.FileEvent? then AddValue(old(files), e.name, File(Normalise(e.part))) else old(files)
      ensures done == (old(done) || Terminal(e))
      ensures !e.ErrorEvent? && !e.CloseEvent? && !e.RequestEnd? ==> calls == old(calls) && waiting == old(waiting)
      ensures !e.CloseEvent? ==>
        req.body == old(req.body) && req.files == old(req.files) && finishList == old(finishList)
      ensures !e.ResponseFinish? ==> unlinked == old(unlinked) && escaped == old(escaped)
      ensures !e.ErrorEvent? ==> req.resumed == old(req.resumed)
      ensures req.readable == (old(req.readable) && !e.RequestEnd?)
      ensures e.ErrorEvent? && old(done) ==> calls == old(calls) && waiting == old(waiting)
      ensures e.ErrorEvent? && !old(done) ==> FailedWith(e.err, req.body, req.files)
      ensures e.CloseEvent? && old(done) ==>
        calls == old(calls) && waiting == old(waiting) && req.body == old(req.body)
        && req.files == old(req.files) && finishList == old(finishList)
      ensures e.CloseEvent? && !old(done) ==> ClosedWith(data, files, old(req.body), old(req.files))
      ensures e.RequestEnd? ==> waiting == None && Outcomes() == old(Outcomes())
      ensures e.ResponseFinish? ==>
        && unlinked == old(unlinked) + Unlinks(finishList, req.files)
        && escaped == (old(escaped) || Throws(finishList, req.files))
    {
      match e {
        case FieldEvent(name, value) => OnField(name, value);
        case FileEvent(name, part) => OnFile(name, part);
        case ErrorEvent(err) => OnError(err);
        case CloseEvent => OnClose();
        case RequestEnd => OnRequestEnd();
        case ResponseFinish => OnResponseFinish();
      }
    }

    /**
     * One event once the outcome is decided: fields and files are still
     * aggregated, but neither an `error` nor a `close` changes anything; the
     * end of the request hands on a held error, and a finish deletes the
     * registered names.
     */
    method DispatchDone(e: Event)
      requires Valid() && parsing && done
      modifies this, req`resumed, req`readable, req`body, req`files
      ensures Valid() && done
      ensures data == if e.FieldEvent? then AddValue(old(data), e.name, Text(e.value)) else old(data)
      ensures files == if e.FileEvent? then AddValue(old(files), e.name, File(Normalise(e.part))) else old(files)
      ensures req.body == old(req.body) && req.files == old(req.files) && finishList == old(finishList)
      ensures Outcomes() == old(Outcomes())
      ensures waiting == if e.RequestEnd? then None else old(waiting)
      ensures req.readable == (old(req.readable) && !e.RequestEnd?)
      ensures unlinked == old(unlinked) + if e.ResponseFinish? then Unlinks(finishList, req.files) else []
      ensures escaped == (old(escaped) || (e.ResponseFinish? && Throws(finishList, req.files)))
    {
      Dispatch(e);
    }

    /**
     * The state after the first `i` of `events`, for an invocation that
     * started with dictionaries `data0` and `fileData0` and with `req.body`
     * and `req.files` equal to `body0` and `files0`: both dictionaries hold
     * the aggregated arrivals, the request has data left until its end, the
     * deletions are those of the finishes so far, and either no terminal
     * event has occurred and nothing is decided, or the first one has
     * decided the outcome.
     */
    ghost predicate Progress(events: seq<Event>, i: nat, data0: FlatMap, fileData0: FlatMap,
                             body0: Option<Node>, files0: Option<Node>,
                             readable0: bool, unlinked0: seq<string>, escaped0: bool)
      reads this, req
      requires i <= |events|
    {
      && req.readable == (readable0 && !AnyEnd(events[..i]))
      && DeletedAfter(events[..i], unlinked0, escaped0)
      && data == AddAll(data0, FieldArrivals(events[..i]))
      && files == AddAll(fileData0, FileArrivals(events[..i]))
      && done == FirstTerminal(events[..i]).Some?
      && (FirstTerminal(events[..i]).None? ==>
            && calls == [] && waiting == None && finishList == []
            && req.body == body0 && req.files == files0)
      && (FirstTerminal(events[..i]).Some? ==>
            Decided(events, FirstTerminal(events[..i]).value, data0, fileData0, body0, files0))
    }

    /** The form emits `events[i]`: Progress moves on by one event. */
    method Advance(events: seq<Event>, i: nat, data0: FlatMap, fileData0: FlatMap,
                   ghost body0: Option<Node>, ghost files0: Option<Node>,
                   ghost readable0: bool, ghost unlinked0: seq<string>, ghost escaped0: bool)
      requires i < |events|
      requires Valid() && parsing
      requires Progress(events, i, data0, fileData0, body0, files0, readable0, unlinked0, escaped0)
      modifies this, req`resumed, req`readable, req`body, req`files
      ensures Valid()
      ensures Progress(events, i + 1, data0, fileData0, body0, files0, readable0, unlinked0, escaped0)
    {
      var t := FirstTerminal(events[..i]);
      if t.None? {
        AdvanceOpen(events, i, data0, fileData0, body0, files0, readable0, unlinked0, escaped0);
      } else if events[t.value].ErrorEvent? {
        AdvanceFailed(events, i, data0, fileData0, body0, files0, readable0, unlinked0, escaped0);
      } else if events[i].ResponseFinish? {
        AdvanceFinished(events, i, data0, fileData0, body0, files0, readable0, unlinked0, escaped0);
      } else {
        AdvanceClosed(events, i, data0, fileData0, body0, files0, readable0, unlinked0, escaped0);
      }
    }

    /** Advance while no `error` or `close` has occurred. */
    method AdvanceOpen(events: seq<Event>, i: nat, data0: FlatMap, fileData0: FlatMap,
                       ghost body0: Option<Node>, ghost files0: Option<Node>,
                       ghost readable0: bool, ghost unlinked0: seq<string>, ghost escaped0: bool)
      requires i < |events| && FirstTerminal(events[..i]).None?
      requires Valid() && parsing
      requires Progress(events, i, data0, fileData0, body0, files0, readable0, unlinked0, escaped0)
      modifies this, req`resumed, req`readable, req`body, req`files
      ensures Valid()
      ensures Progress(events, i + 1, data0, fileData0, body0, files0, readable0, unlinked0, escaped0)
    {
      Dispatch(events[i]);
      FoldStep(events, i, data0, fileData0);
      FirstTerminalStep(events, i);
      EndStep(events, i);
      FinishStep(events, i, i);
    }

    /** Advance after an `error` has decided the outcome. */
    method AdvanceFailed(events: seq<Event>, i: nat, data0: FlatMap, fileData0: FlatMap,
                         ghost body0: Option<Node>, ghost files0: Option<Node>,
                         ghost readable0: bool, ghost unlinked0: seq<string>, ghost escaped0: bool)
      requires i < |events| && FirstTerminal(events[..i]).Some?
      requires events[FirstTerminal(events[..i]).value].ErrorEvent?
      requires Valid() && parsing
      requires Progress(events, i, data0, fileData0, body0, files0, readable0, unlinked0, escaped0)
      modifies this, req`resumed, req`readable, req`body, req`files
      ensures Valid()
      ensures Progress(events, i + 1, data0, fileData0, body0, files0, readable0, unlinked0, escaped0)
    {
      DispatchDone(events[i]);
      FoldStep(events, i, data0, fileData0);
      FirstTerminalStep(events, i);
      EndStep(events, i);
    }

    /** Advance after a `close` has decided the outcome, on an event other than a finish. */
    method AdvanceClosed(events: seq<Event>, i: nat, data0: FlatMap, fileData0: FlatMap,
                         ghost body0: Option<Node>, ghost files0: Option<Node>,
                         ghost readable0: bool, ghost unlinked0: seq<string>, ghost escaped0: bool)
      requires i < |events| && FirstTerminal(events[..i]).Some? && !events[i].ResponseFinish?
      requires events[FirstTerminal(events[..i]).value].CloseEvent?
      requires Valid() && parsing
      requires Progress(events, i, data0, fileData0, body0, files0, readable0, unlinked0, escaped0)
      modifies this, req`resumed, req`readable, req`body, req`files
      ensures Valid()
      ensures Progress(events, i + 1, data0, fileData0, body0, files0, readable0, unlinked0, escaped0)
    {
      ghost var j := FirstTerminal(events[..i]).value;
      assert ClosedWith(AddAll(data0, FieldArrivals(events[..j])), AddAll(fileData0, FileArrivals(events[..j])),
                        body0, files0);
      ghost var made, outcome := calls, Outcomes();
      assert outcome == made;
      DispatchDone(events[i]);
      FoldStep(events, i, data0, fileData0);
      FirstTerminalStep(events, i);
      EndStep(events, i);
      FinishStep(events, i, j);
      // Nothing is held after a close, so no event adds a call.
      assert Outcomes() == calls;
    }

    /** Advance after a `close` has decided the outcome, on a response finish. */
    method AdvanceFinished(events: seq<Event>, i: nat, data0: FlatMap, fileData0: FlatMap,
                           ghost body0: Option<Node>, ghost files0: Option<Node>,
                           ghost readable0: bool, ghost unlinked0: seq<string>, ghost escaped0: bool)
      requires i < |events| && FirstTerminal(events[..i]).Some? && events[i].ResponseFinish?
      requires events[FirstTerminal(events[..i]).value].CloseEvent?
      requires Valid() && parsing
      requires Progress(events, i, data0, fileData0, body0, files0, readable0, unlinked0, escaped0)
      modifies this, req`resumed, req`readable, req`body, req`files
      ensures Valid()
      ensures Progress(events, i + 1, data0, fileData0, body0, files0, readable0, unlinked0, escaped0)
    {
      ghost var j := FirstTerminal(events[..i]).value;
      ghost var n := FinishesFrom(events[..i], j);
      assert events[..i][j] == events[j];
      assert Deleted(unlinked0, escaped0, n);
      assert Decided(events, j, data0, fileData0, body0, files0);
      ghost var deletion := Unlinks(finishList, req.files);
      OnResponseFinish();
      FinishIsQuiet(events, i);
      FinishStep(events, i, j);
      RepeatStep(unlinked0, deletion, n);
      assert Deleted(unlinked0, escaped0, n + 1);
      assert events[..i + 1][j] == events[j];
      assert DeletedAfter(events[..i + 1], unlinked0, escaped0);
      assert req.readable == (readable0 && !AnyEnd(events[..i + 1]));
      assert data == AddAll(data0, FieldArrivals(events[..i + 1]));
      assert files == AddAll(fileData0, FileArrivals(events[..i + 1]));
    }

    /**
     * The form emits `events` in order, from the start of parsing. Every
     * field and file is aggregated, parsing is done exactly when an `error`
     * or `close` has been seen, `next` is called at most once, and the
     * first such event decides the outcome; nothing before it touches the
     * outcome, `req.body` or `req.files`. The request has data left until
     * its end, and each response finish after a `close` deletes the
     * registered names.
     */
    method Run(events: seq<Event>)
      requires Valid() && parsing && !done
      modifies this, req`resumed, req`readable, req`body, req`files
      ensures Valid()
      ensures data == AddAll(old(data), FieldArrivals(events))
      ensures files == AddAll(old(files), FileArrivals(events))
      ensures done == FirstTerminal(events).Some?
      ensures |calls| <= 1
      ensures req.readable == (old(req.readable) && !AnyEnd(events))
      ensures DeletedAfter(events, old(unlinked), old(escaped))
      ensures FirstTerminal(events).None? ==>
        && calls == [] && waiting == None && finishList == []
        && req.body == old(req.body) && req.files == old(req.files)
      ensures FirstTerminal(events).Some? ==>
        Decided(events, FirstTerminal(events).value, old(data), old(files), old(req.body), old(req.files))
    {
      var data0, fileData0 := data, files;
      ghost var body0, files0 := req.body, req.files;
      ghost var readable0, unlinked0, escaped0 := req.readable, unlinked, escaped;
      assert events[..0] == [];
      var i := 0;
      while i < |events|
        invariant 0 <= i <= |events|
        invariant Valid() && Progress(events, i, data0, fileData0, body0, files0, readable0, unlinked0, escaped0)
      {
        Advance(events, i, data0, fileData0, body0, files0, readable0, unlinked0, escaped0);
        i := i + 1;
      }
      assert events[..i] == events;
    }
  }
}
