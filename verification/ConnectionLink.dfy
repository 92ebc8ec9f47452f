/**
  The connection object in its reactor: bytes in, deliveries out, and every action one step of the transition
  system.
*/
module ConnectionLink {
  import opened Bytes
  import opened HttpTypes
  import opened Glue
  import opened Connection
  import opened HttpConnection
  import F = Framer

  /** One connection: the codec's object and the receive buffer, with its history for the record. */
  class Link {
    const tok: Tokenizer
    const lim: Limits
    const conn: HttpConn
    var buf: bytes
    var open: bool
    ghost var past: seq<Exchange>
    ghost var eaten: bytes
    ghost var log: seq<Event>

    ghost function Value(): Sys
      reads this, conn
    {
      Sys(conn.Value(), past, eaten, buf, log, open)
    }

    constructor (tokenizer: Tokenizer, limits: Limits)
      ensures tok == tokenizer && lim == limits && fresh(conn) && Value() == Start(limits)
    {
      tok, lim := tokenizer, limits;
      conn := new HttpConn(limits.streamCap);
      buf, open := [], true;
      past, eaten, log := [], [], [];
    }

    /** Bytes the kernel handed over. */
    method Arrive(bs: bytes)
      modifies this
      ensures Value() == Act(tok, lim, old(Value()), Action.Arrive(bs))
    {
      if open {
        buf := buf + bs;
      }
    }

    /** Drop what was delivered, send the response, and close or go on as it says. */
    method Conclude(n: nat, resp: Response, ghost calls: seq<Dispatch>)
      requires n <= |buf|
      modifies this
      ensures Value() == Connection.Conclude(old(past), conn.Value(), old(eaten + buf[..n]), old(buf[n..]),
                                             old(log) + Events(calls), resp)
    {
      eaten := eaten + buf[..n];
      buf := buf[n..];
      log := log + Events(calls) + [Sent(resp)];
      open := !Closes(resp);
      if KeepsOpen(resp) && !Closes(resp) {
        past, eaten, log := past + [Exchange(eaten, log)], [], [];
      }
    }

    /** A body as the reactor hands it over: a slice of its buffer, or storage of the body's own. */
    method Hand(bs: bytes, owned: bool) returns (body: Delivered)
      ensures HttpConnection.Content(body) == bs && (body.Owned? ==> fresh(body.storage))
    {
      if !owned {
        return Borrowed(bs);
      }
      var storage := new byte[|bs|](i requires 0 <= i < |bs| => bs[i]);
      assert storage[..] == bs;
      return Owned(storage);
    }

    /**
      Frame what is buffered, and deliver a message once all of it is there, in storage of its own or not.
    */
    method Pump(env: Env, owned: bool)
      modifies this, conn
      ensures Value() == Act(tok, lim, old(Value()), Action.Pump(env))
    {
      hide F.Frame, Step, Events, Closes, KeepsOpen;
      if !open || conn.phase.Parked? {
        return;
      }
      var framing := conn.Frame(tok, buf, lim.cfg);
      match framing
      case More =>
      case MoreInMessage =>
      case Complete(h, b) =>
        if h + b == 0 || h + b > lim.reactorCap {
          open := false;
        } else if h + b <= |buf| {
          var body := Hand(buf[h..h + b], owned);
          var resp, calls := conn.Step(tok, buf[..h], body, env);
          Conclude(h + b, resp, calls);
        }
    }

    /** A worker resolves the park, in a way its handle allows. */
    method Complete(env: Env)
      modifies this, conn
      ensures Value() == Act(tok, lim, old(Value()), Action.Complete(env))
    {
      hide Step, Events, Closes, KeepsOpen;
      if !open || !conn.phase.Parked? {
        return;
      }
      var kind := conn.phase.req.kind;
      if (env.outcome.Redrive? && kind == Streaming) || (env.outcome.Resume? && kind == Retained) {
        return;
      }
      var resp, calls := conn.Step(tok, [], Borrowed([]), env);
      Conclude(0, resp, calls);
    }

    /** The worker gave its handle up. */
    method Abandon()
      modifies this
      ensures Value() == Act(tok, lim, old(Value()), Action.Abandon)
    {
      if open && conn.phase.Parked? {
        open := false;
      }
    }

    method Take(a: Action, owned: bool)
      modifies this, conn
      ensures Value() == Act(tok, lim, old(Value()), a)
    {
      hide Act;
      match a
      case Arrive(bs) => Arrive(bs);
      case Pump(env) => Pump(env, owned);
      case Complete(env) => Complete(env);
      case Abandon => Abandon();
    }

    /**
      Any sequence of actions, whichever storage each body comes in: what every run of the transition system
      keeps, the object keeps.
    */
    method Run(actions: seq<Action>, owned: nat -> bool)
      modifies this, conn
      ensures Value() == Exec(tok, lim, old(Value()), actions)
    {
      hide Act;
      var i := 0;
      assert actions[0..] == actions;
      while i < |actions|
        invariant i <= |actions| && Exec(tok, lim, Value(), actions[i..]) == Exec(tok, lim, old(Value()), actions)
      {
        assert actions[i..][1..] == actions[i + 1..];
        Take(actions[i], owned(i));
        i := i + 1;
      }
    }
  }
}
