/**
 * Client code in the manner of the repository's test suite: each member
 * drives the middleware model through one situation the tests describe and
 * returns what a caller can observe, which its contract pins down.
 */
module Scenarios {
  import opened Values
  import opened Aggregate
  import opened Cleanup
  import opened MultipartMiddleware

  /** A GET request is never parsed: `next()` at once, `req._body` left unset, empty body. */
  method IgnoresGet(parse: Decoder) returns (calls: seq<Call>, marked: bool, body: Option<Node>)
    ensures calls == [Proceed] && !marked && body == Some(Obj(map[]))
  {
    var mw := new Multipart(Unset, parse);
    var req := new Request("GET", true, false, None, None, true);
    var inv := mw.Process(req, [FieldEvent("user", "Tobi"), CloseEvent]);
    calls, marked, body := inv.calls, req.marked, req.body;
  }

  /** The same middleware twice on one request: the second passes it through untouched. */
  method DuplicatedMiddleware(parse: Decoder)
    returns (second: seq<Call>, bodyBefore: Option<Node>, bodyAfter: Option<Node>)
    ensures second == [Proceed] && bodyAfter == bodyBefore
  {
    var mw := new Multipart(Unset, parse);
    var req := new Request("POST", true, false, None, None, true);
    var first := mw.Process(req, [FieldEvent("user", "Tobi"), CloseEvent]);
    bodyBefore := req.body;
    var copy := new Multipart(Unset, parse);
    var inv := copy.Process(req, [FieldEvent("user", "Loki"), CloseEvent]);
    second, bodyAfter := inv.calls, req.body;
  }

  /** Three values under one name become one array, in arrival order. */
  lemma DuplicatedFields()
    ensures var arrivals := [("user", Text("Tobi")), ("user", Text("Loki")), ("user", Text("Poki"))];
      AddAll(map[], arrivals) == map["user" := Many([Text("Tobi"), Text("Loki"), Text("Poki")])]
  {
    var arrivals := [("user", Text("Tobi")), ("user", Text("Loki")), ("user", Text("Poki"))];
    assert arrivals[..2][..1][..0] == [];
    assert AddAll(map[], arrivals[..2][..1]) == map["user" := One(Text("Tobi"))];
    assert AddAll(map[], arrivals[..2]) == map["user" := Many([Text("Tobi"), Text("Loki")])];
    assert [Text("Tobi"), Text("Loki")] + [Text("Poki")] == [Text("Tobi"), Text("Loki"), Text("Poki")];
    assert AddAll(map[], arrivals) == AddValue(AddAll(map[], arrivals[..2]), "user", Text("Poki"));
  }

  /**
   * A POST that is not multipart passes through: `next()` at once, the
   * request is not marked as parsed, and `req.body` and `req.files` default
   * to empty objects.
   */
  method DefaultsToEmptyObjects(parse: Decoder)
    returns (calls: seq<Call>, marked: bool, body: Option<Node>, files: Option<Node>)
    ensures calls == [Proceed] && !marked && body == Some(Obj(map[])) && files == Some(Obj(map[]))
  {
    var mw := new Multipart(Unset, parse);
    var req := new Request("POST", false, false, None, None, true);
    var inv := mw.Process(req, []);
    calls, marked, body, files := inv.calls, req.marked, req.body, req.files;
  }

  /**
   * A multipart request with no parts: the form closes at once, and with a
   * decoder that gives `{}` for an empty dictionary, `req.body` and
   * `req.files` are empty objects and `next()` is called.
   */
  method EmptyForm(parse: Decoder) returns (calls: seq<Call>, body: Option<Node>, files: Option<Node>)
    requires parse(map[]) == Ok(map[])
    ensures calls == [Proceed] && body == Some(Obj(map[])) && files == Some(Obj(map[]))
  {
    var mw := new Multipart(Unset, parse);
    var req := new Request("POST", true, false, None, None, false);
    var events := [CloseEvent];
    assert FirstTerminal(events) == Some(0) && events[..0] == [];
    var inv := mw.Process(req, events);
    assert FieldArrivals(events[..0]) == [] && FileArrivals(events[..0]) == [];
    assert AddAll(map[], []) == map[];
    calls, body, files := inv.calls, req.body, req.files;
  }

  /**
   * A malformed form on a request that still has data: `next(err)` is held
   * while the request drains, the `close` after the error is ignored, and
   * once the request ends the error reaches `next` with status 400.
   */
  method FailureBeforeClose(parse: Decoder, err: Error) returns (held: seq<Call>, calls: seq<Call>)
    ensures held == [] && calls == [Fail(ClientFault(err))] && calls[0].err.status == Some(400)
  {
    var mw := new Multipart(Unset, parse);
    var draining := new Request("POST", true, false, None, None, true);
    var events := [ErrorEvent(err), CloseEvent];
    assert FirstTerminal(events[..1]) == Some(0);
    assert !AnyEnd(events);
    var first := mw.Process(draining, events);
    held := first.calls;
    var drained := new Request("POST", true, false, None, None, true);
    var ended := events + [RequestEnd];
    assert FirstTerminal(ended[..1]) == Some(0) && ended[2].RequestEnd?;
    var second := mw.Process(drained, ended);
    calls := second.calls;
  }

  /** An error on a request with no data left reaches `next` at once, with status 400. */
  method FailureOnDrainedRequest(parse: Decoder, err: Error) returns (calls: seq<Call>)
    ensures calls == [Fail(ClientFault(err))] && calls[0].err.status == Some(400)
  {
    var mw := new Multipart(Unset, parse);
    var req := new Request("POST", true, false, None, None, false);
    var events := [ErrorEvent(err)];
    assert FirstTerminal(events[..0]).None?;
    var inv := mw.Process(req, events);
    calls := inv.calls;
  }

  /** No two positions of `r` hold the same name, and `r` holds exactly `name`: `r` is `[name]`. */
  lemma OnlyName(r: seq<string>, name: string)
    requires forall k :: k == name <==> k in r
    requires forall i, j :: 0 <= i < j < |r| ==> r[i] != r[j]
    ensures r == [name]
  {
    assert name in r;
    var i :| 0 <= i < |r| && r[i] == name;
    forall j | 0 <= j < |r|
      ensures r[j] == name && j == i
    {
      assert r[j] in r;
    }
    assert r[0] == name && r[|r| - 1] == name;
  }

  /**
   * With deleteOnFinish set to `true`, a form whose files decode to one
   * upload under `f` registers `f`, and the response's finish unlinks that
   * upload's path, once.
   */
  method DeletesOnFinish(u: Upload) returns (calls: seq<Call>, unlinked: seq<string>, escaped: bool)
    ensures calls == [Proceed] && unlinked == [u.part.path] && !escaped
  {
    var decoded := map["f" := Leaf(File(u))];
    var mw := new Multipart(Flag(true), (d: FlatMap) => Ok(decoded));
    var req := new Request("POST", true, false, None, None, false);
    var events := [CloseEvent, ResponseFinish];
    assert FirstTerminal(events[..1]) == Some(0);
    assert FirstTerminal(events) == Some(0);
    assert FinishesFrom(events[..1], 0) == 0;
    assert FinishesFrom(events, 0) == 1;
    var inv := mw.Process(req, events);
    assert inv.finishList == ["f"] by {
      assert forall k :: k == "f" <==> k in decoded;
      OnlyName(inv.finishList, "f");
    }
    assert Unlinks(inv.finishList, req.files) == [u.part.path] && !Throws(inv.finishList, req.files) by {
      assert inv.finishList[1..] == [];
    }
    assert Repeat([u.part.path], 1) == [u.part.path];
    calls, unlinked, escaped := inv.calls, inv.unlinked, inv.escaped;
  }

  /**
   * A failure while the request still has data: the request is resumed and
   * `next(err)` waits, with status 400, until the request has finished; a
   * later `close` changes nothing.
   */
  method ErrorWaitsForDrain(parse: Decoder, err: Error) returns (beforeEnd: seq<Call>, afterEnd: seq<Call>)
    ensures beforeEnd == [] && afterEnd == [Fail(ClientFault(err))] && afterEnd[0].err.status == Some(400)
  {
    var mw := new Multipart(Unset, parse);
    var req := new Request("POST", true, false, None, None, true);
    var inv := mw.Handle(req);
    inv.OnField("user", "Tobi");
    inv.OnError(err);
    inv.OnClose();
    beforeEnd := inv.calls;
    inv.OnRequestEnd();
    afterEnd := inv.calls;
  }
}
