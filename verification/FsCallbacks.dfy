/** Requests as chains of completion callbacks: what the callbacks do, and what every run of a durable put keeps. */
module FsCallbacks {
  import opened Bytes

  datatype Op =
    | OpenAt(dir: int, path: string, create: bool)
    | StatIsDir(dir: int, path: string)
    | WriteOnce(fd: int, data: bytes)
    | Fsync(fd: int)
    | Rename(olddir: int, old_: string, newdir: int, new_: string)
    | CloseFd(fd: int)
    | Unlink(dir: int, path: string)

  datatype Out =
    | Fd(fd: int)
    | Count(n: nat)
    | IsDir(yes: bool)
    | Nothing

  /** The callbacks an operation can be staged with. */
  datatype Callback = OnTmpOpen | OnStep | OnCommitted | OnStat | OnOpen | Ignore

  datatype Item = Item(op: Op, cb: Callback)

  /** A linked run of operations for one request; a standalone operation is a run of one. */
  datatype Run = Run(key: nat, items: seq<Item>)

  datatype Done = Good | Failed(res: int)

  /** What a completed operation reported. */
  datatype Report = Report(res: int, out: Out)

  /**
    A request's state. `owed` says its result has not been delivered yet, `delivered` is what its caller was
    given, and `log` is every completion its callbacks were handed.
  */
  datatype Req = Req(dir: int, tmpFd: int, tmpPath: string, finalPath: string, body: bytes, failed: bool, owed: bool,
                     delivered: seq<Done>, log: seq<(Op, int)>)

  /** A put as it was asked for. */
  datatype Put = Put(key: nat, dir: int, tmp: string, fin: string, body: bytes)

  /** A lookup as it was asked for: is this name a directory, and can it be opened if not. */
  datatype Stat = Stat(key: nat, dir: int, name: string)

  const ECANCELED: int := 125

  // ----- linked runs

  /** Results a linked run can report: in order, and after the first failure nothing but cancellations. */
  predicate Legal(items: seq<Item>, rs: seq<Report>) {
    && |rs| == |items|
    && (forall i :: 0 <= i < |rs| ==> Sane(items[i].op, rs[i]))
    && (forall i, j :: 0 <= i < j < |rs| && rs[i].res < 0 ==> rs[j] == Report(-ECANCELED, Nothing))
  }

  /** An open that succeeds names its descriptor; nothing else names one. */
  predicate Sane(op: Op, r: Report) {
    if op.OpenAt? && r.res >= 0 then r.out == Fd(r.res) else !r.out.Fd?
  }

  // ----- callbacks

  function Finish(st: Req, d: Done): Req {
    if st.owed then st.(owed := false, delivered := st.delivered + [d]) else st
  }

  function One(key: nat, op: Op, cb: Callback): Run {
    Run(key, [Item(op, cb)])
  }

  /** Write, flush, publish, and flush the directory: the tail that makes a put durable. */
  function Tail(st: Req, fd: int): seq<Item> {
    [Item(WriteOnce(fd, st.body), OnStep), Item(Fsync(fd), OnStep),
     Item(Rename(st.dir, st.tmpPath, st.dir, st.finalPath), OnStep), Item(Fsync(st.dir), OnCommitted)]
  }

  function CloseRun(st: Req, key: nat): seq<Run> {
    if st.tmpFd >= 0 then [One(key, CloseFd(st.tmpFd), Ignore)] else []
  }

  /** Hand a completion to its callback: the request's new state, and what it stages. */
  function Fire(item: Item, r: Report, key: nat, was: Req): (Req, seq<Run>) {
    var st := was.(log := was.log + [(item.op, r.res)]);
    match item.cb
    case Ignore => (st, [])
    case OnTmpOpen =>
      if r.out.Fd? && r.res >= 0 then (st.(tmpFd := r.out.fd, body := []), [Run(key, Tail(st, r.out.fd))])
      else (Finish(st.(failed := true), Failed(r.res)), [])
    case OnStep =>
      if r.res < 0 && !st.failed then
        (Finish(st.(failed := true), Failed(r.res)), [One(key, Unlink(st.dir, st.tmpPath), Ignore)] + CloseRun(st, key))
      else (st, [])
    case OnCommitted =>
      if st.failed then (st, [])
      else (Finish(st.(failed := r.res < 0), if r.res >= 0 then Good else Failed(r.res)), CloseRun(st, key))
    case OnStat =>
      (match r.out
       case IsDir(true) => (Finish(st, Good), [])
       case IsDir(false) => (st, [One(key, OpenAt(st.dir, st.finalPath, false), OnOpen)])
       case _ => (Finish(st.(failed := true), Failed(r.res)), []))
    case OnOpen =>
      if r.out.Fd? && r.res >= 0 then (Finish(st, Good), [One(key, CloseFd(r.out.fd), Ignore)])
      else (Finish(st.(failed := true), Failed(r.res)), [])
  }

  /** The callbacks of a run's first `n` operations, in order. */
  function FireRun(run: Run, rs: seq<Report>, n: nat, st: Req): (Req, seq<Run>)
    requires n <= |rs| == |run.items|
  {
    if n == 0 then (st, [])
    else
      var (before, staged) := FireRun(run, rs, n - 1, st);
      var (after, more) := Fire(run.items[n - 1], rs[n - 1], run.key, before);
      (after, staged + more)
  }

  // ----- the reactor's rounds

  /** Everything staged runs, and then every completion is handed to its callback, in order. */
  function Round(runs: seq<Run>, rss: seq<seq<Report>>, reqs: seq<Req>): (seq<Req>, seq<Run>)
    requires |rss| == |runs| && forall i :: 0 <= i < |runs| ==> runs[i].key < |reqs| && |rss[i]| == |runs[i].items|
    ensures |Round(runs, rss, reqs).0| == |reqs|
  {
    if runs == [] then (reqs, [])
    else
      var n := |runs| - 1;
      var (before, staged) := Round(runs[..n], rss[..n], reqs);
      var run := runs[n];
      var (st, more) := FireRun(run, rss[n], |run.items|, before[run.key]);
      (before[run.key := st], staged + more)
  }

  /** `puts` and `stats` remember what the requests were begun as. */
  datatype Sys = Sys(reqs: seq<Req>, staged: seq<Run>, puts: seq<Put>, stats: seq<Stat>)

  datatype Action =
    | BeginPut(dir: int, tmp: string, fin: string, body: bytes)
    | BeginStat(dir: int, name: string)
    | RunRound(rss: seq<seq<Report>>)

  function NewReq(dir: int, tmp: string, fin: string, body: bytes): Req {
    Req(dir, -1, tmp, fin, body, false, true, [], [])
  }

  /** A round is played with results its runs can report. */
  ghost predicate Enabled(sys: Sys, a: Action) {
    a.RunRound? ==>
      && |a.rss| == |sys.staged|
      && forall i :: 0 <= i < |sys.staged| ==> sys.staged[i].key < |sys.reqs| && Legal(sys.staged[i].items, a.rss[i])
  }

  ghost function Act(sys: Sys, a: Action): Sys
    requires Enabled(sys, a)
  {
    var key := |sys.reqs|;
    match a
    case BeginPut(dir, tmp, fin, body) =>
      Sys(sys.reqs + [NewReq(dir, tmp, fin, body)], sys.staged + [One(key, OpenAt(dir, tmp, true), OnTmpOpen)],
          sys.puts + [Put(key, dir, tmp, fin, body)], sys.stats)
    case BeginStat(dir, name) =>
      Sys(sys.reqs + [NewReq(dir, "", name, [])], sys.staged + [One(key, StatIsDir(dir, name), OnStat)], sys.puts,
          sys.stats + [Stat(key, dir, name)])
    case RunRound(rss) =>
      Sys(Round(sys.staged, rss, sys.reqs).0, Round(sys.staged, rss, sys.reqs).1, sys.puts, sys.stats)
  }

  // ----- one request among others

  /** The runs staged for one request. */
  function Mine(runs: seq<Run>, k: nat): seq<Run> {
    if runs == [] then []
    else Mine(runs[..|runs| - 1], k) + if runs[|runs| - 1].key == k then [runs[|runs| - 1]] else []
  }

  function MyResults(runs: seq<Run>, rss: seq<seq<Report>>, k: nat): seq<seq<Report>>
    requires |rss| == |runs|
  {
    if runs == [] then []
    else MyResults(runs[..|runs| - 1], rss[..|runs| - 1], k) + if runs[|runs| - 1].key == k then [rss[|runs| - 1]]
                                                               else []
  }

  /** A round as one request sees it. */
  function OwnRound(runs: seq<Run>, rss: seq<seq<Report>>, st: Req): (Req, seq<Run>)
    requires |rss| == |runs| && forall i :: 0 <= i < |runs| ==> |rss[i]| == |runs[i].items|
  {
    if runs == [] then (st, [])
    else
      var n := |runs| - 1;
      var (before, staged) := OwnRound(runs[..n], rss[..n], st);
      var (after, more) := FireRun(runs[n], rss[n], |runs[n].items|, before);
      (after, staged + more)
  }

  lemma {:induction false} MineAppend(a: seq<Run>, b: seq<Run>, k: nat)
    ensures Mine(a + b, k) == Mine(a, k) + Mine(b, k)
    decreases |b|
  {
    if b == [] {
      Empties(a);
      Empties(Mine(a, k));
    } else {
      var front, last := b[..|b| - 1], b[|b| - 1];
      assert (a + b)[..|a + b| - 1] == a + front;
      MineAppend(a, front, k);
      AppendAppend(Mine(a, k), Mine(front, k), if last.key == k then [last] else []);
    }
  }

  /** A callback stages only for its own request. */
  predicate OwnedBy(runs: seq<Run>, k: nat) {
    forall i :: 0 <= i < |runs| ==> runs[i].key == k
  }

  lemma {:induction false} FireOwns(run: Run, rs: seq<Report>, n: nat, st: Req)
    requires n <= |rs| == |run.items|
    ensures OwnedBy(FireRun(run, rs, n, st).1, run.key)
  {
    if n > 0 {
      FireOwns(run, rs, n - 1, st);
    }
  }

  lemma {:induction false} MineOwned(runs: seq<Run>, owner: nat, k: nat)
    requires OwnedBy(runs, owner)
    ensures Mine(runs, k) == if k == owner then runs else []
    decreases |runs|
  {
    if runs != [] {
      MineOwned(runs[..|runs| - 1], owner, k);
      assert runs == runs[..|runs| - 1] + [runs[|runs| - 1]];
    }
  }

  lemma {:induction false} MyResultsFit(runs: seq<Run>, rss: seq<seq<Report>>, k: nat)
    requires |rss| == |runs| && forall i :: 0 <= i < |runs| ==> Legal(runs[i].items, rss[i])
    ensures |MyResults(runs, rss, k)| == |Mine(runs, k)|
    ensures forall i :: 0 <= i < |Mine(runs, k)| ==> Legal(Mine(runs, k)[i].items, MyResults(runs, rss, k)[i])
    decreases |runs|
  {
    hide Legal;
    if runs != [] {
      var n := |runs| - 1;
      MyResultsFit(runs[..n], rss[..n], k);
    }
  }

  lemma {:induction false} LegalLengths(runs: seq<Run>, rss: seq<seq<Report>>)
    requires |rss| == |runs| && forall i :: 0 <= i < |runs| ==> Legal(runs[i].items, rss[i])
    ensures forall i :: 0 <= i < |runs| ==> |rss[i]| == |runs[i].items|
  {
  }

  /** Requests do not disturb one another: a round does to each what it would have done alone. */
  lemma {:induction false} RoundIsOwn(runs: seq<Run>, rss: seq<seq<Report>>, reqs: seq<Req>, k: nat)
    requires |rss| == |runs| && k < |reqs|
    requires forall i :: 0 <= i < |runs| ==> runs[i].key < |reqs| && Legal(runs[i].items, rss[i])
    ensures |MyResults(runs, rss, k)| == |Mine(runs, k)|
    ensures forall i :: 0 <= i < |Mine(runs, k)| ==> |MyResults(runs, rss, k)[i]| == |Mine(runs, k)[i].items|
    ensures forall i :: 0 <= i < |runs| ==> |rss[i]| == |runs[i].items|
    ensures var r, own := Round(runs, rss, reqs), OwnRound(Mine(runs, k), MyResults(runs, rss, k), reqs[k]);
            r.0[k] == own.0 && Mine(r.1, k) == own.1
    decreases |runs|
  {
    hide Legal, FireRun;
    LegalLengths(runs, rss);
    MyResultsFit(runs, rss, k);
    LegalLengths(Mine(runs, k), MyResults(runs, rss, k));
    if runs != [] {
      var n := |runs| - 1;
      RoundIsOwn(runs[..n], rss[..n], reqs, k);
      RoundStep(runs, rss, reqs, k);
    }
  }

  lemma {:induction false} RoundStep(runs: seq<Run>, rss: seq<seq<Report>>, reqs: seq<Req>, k: nat)
    requires runs != [] && |rss| == |runs| && k < |reqs|
    requires forall i :: 0 <= i < |runs| ==> runs[i].key < |reqs| && |rss[i]| == |runs[i].items|
    requires |MyResults(runs, rss, k)| == |Mine(runs, k)|
    requires forall i :: 0 <= i < |Mine(runs, k)| ==> |MyResults(runs, rss, k)[i]| == |Mine(runs, k)[i].items|
    requires var n := |runs| - 1;
             && |MyResults(runs[..n], rss[..n], k)| == |Mine(runs[..n], k)|
             && (forall i :: 0 <= i < |Mine(runs[..n], k)| ==>
                   |MyResults(runs[..n], rss[..n], k)[i]| == |Mine(runs[..n], k)[i].items|)
             && var r, own := Round(runs[..n], rss[..n], reqs),
                               OwnRound(Mine(runs[..n], k), MyResults(runs[..n], rss[..n], k), reqs[k]);
                r.0[k] == own.0 && Mine(r.1, k) == own.1
    ensures var r, own := Round(runs, rss, reqs), OwnRound(Mine(runs, k), MyResults(runs, rss, k), reqs[k]);
            r.0[k] == own.0 && Mine(r.1, k) == own.1
  {
    hide FireRun;
    var n := |runs| - 1;
    var run := runs[n];
    var (before, staged) := Round(runs[..n], rss[..n], reqs);
    var (st, more) := FireRun(run, rss[n], |run.items|, before[run.key]);
    FireOwns(run, rss[n], |run.items|, before[run.key]);
    MineOwned(more, run.key, k);
    MineAppend(staged, more, k);
    if run.key == k {
      var mine, results := Mine(runs[..n], k), MyResults(runs[..n], rss[..n], k);
      assert Mine(runs, k)[..|mine|] == mine && MyResults(runs, rss, k)[..|mine|] == results;
    } else {
      Empties(Mine(runs[..n], k));
      Empties(MyResults(runs[..n], rss[..n], k));
      Empties(Mine(staged, k));
    }
  }

  // ----- a durable put

  function Opening(p: Put): Op {
    OpenAt(p.dir, p.tmp, true)
  }

  function Begun(p: Put): Req {
    NewReq(p.dir, p.tmp, p.fin, p.body)
  }

  /** The temporary file is open as `fd` and the tail is staged. */
  function Writing(p: Put, fd: int): Req {
    Begun(p).(tmpFd := fd, body := [], log := [(Opening(p), fd)])
  }

  /** Create the temporary file, write it, flush it, publish it, and flush the directory: in this order. */
  function TailLog(p: Put, fd: int, rs: seq<int>): seq<(Op, int)>
    requires |rs| == 4
  {
    [(OpenAt(p.dir, p.tmp, true), fd), (WriteOnce(fd, p.body), rs[0]), (Fsync(fd), rs[1]),
     (Rename(p.dir, p.tmp, p.dir, p.fin), rs[2]), (Fsync(p.dir), rs[3])]
  }

  /** Behind the first failure of a linked run everything is cancelled. */
  predicate Linked(rs: seq<int>) {
    forall i, j :: 0 <= i < j < |rs| && rs[i] < 0 ==> rs[j] == -125
  }

  /** Which of write, flush, publish and directory flush failed first decides the result. */
  function Verdict(rs: seq<int>): Done
    requires |rs| == 4
  {
    if rs[0] < 0 then Failed(rs[0]) else if rs[1] < 0 then Failed(rs[1]) else if rs[2] < 0 then Failed(rs[2])
    else if rs[3] < 0 then Failed(rs[3]) else Good
  }

  /** What is left to do once the result is out: remove the temporary file unless it was published, and close it. */
  function Cleanup(p: Put, fd: int, rs: seq<int>): seq<Op>
    requires |rs| == 4
  {
    (if rs[0] < 0 || rs[1] < 0 || rs[2] < 0 then [Unlink(p.dir, p.tmp)] else []) + [CloseFd(fd)]
  }

  function CleanupRuns(p: Put, fd: int, rs: seq<int>): seq<Run>
    requires |rs| == 4
  {
    (if rs[0] < 0 || rs[1] < 0 || rs[2] < 0 then [One(p.key, Unlink(p.dir, p.tmp), Ignore)] else [])
    + [One(p.key, CloseFd(fd), Ignore)]
  }

  predicate Answered(st: Req, d: Done) {
    !st.owed && st.delivered == [d]
  }

  /** The tail has run with results `rs`, and the answer is out. */
  ghost predicate Committed(p: Put, st: Req, mine: seq<Run>, fd: int, rs: seq<int>) {
    && fd >= 0 && |rs| == 4 && Linked(rs) && Answered(st, Verdict(rs))
    && ((st.log == TailLog(p, fd, rs) && mine == CleanupRuns(p, fd, rs))
        || (mine == [] && exists c: seq<int> :: Cleaned(p, st, fd, rs, c)))
  }

  ghost predicate Cleaned(p: Put, st: Req, fd: int, rs: seq<int>, c: seq<int>)
    requires |rs| == 4
  {
    |c| == |Cleanup(p, fd, rs)|
    && st.log == TailLog(p, fd, rs) + seq(|c|, i requires 0 <= i < |c| => (Cleanup(p, fd, rs)[i], c[i]))
  }

  /** Where a put can stand between rounds. */
  ghost predicate PutAt(p: Put, st: Req, mine: seq<Run>) {
    || (st == Begun(p) && mine == [One(p.key, Opening(p), OnTmpOpen)])
    || (mine == [] && exists res: int :: res < 0 && st.log == [(Opening(p), res)] && Answered(st, Failed(res)))
    || (exists fd: int :: fd >= 0 && st == Writing(p, fd) && mine == [Run(p.key, Tail(Begun(p), fd))])
    || (exists fd: int, rs: seq<int> :: Committed(p, st, mine, fd, rs))
  }

  lemma {:induction false} OneFires(run: Run, rs: seq<Report>, st: Req)
    requires |run.items| == 1 && |rs| == 1
    ensures FireRun(run, rs, 1, st) == Fire(run.items[0], rs[0], run.key, st)
    ensures OwnRound([run], [rs], st) == Fire(run.items[0], rs[0], run.key, st)
  {
    hide Fire;
    assert FireRun(run, rs, 0, st) == (st, []);
    Empties(Fire(run.items[0], rs[0], run.key, st).1);
    OwnOne(run, rs, st);
  }

  lemma {:induction false} OwnOne(run: Run, rs: seq<Report>, st: Req)
    requires |rs| == |run.items|
    ensures OwnRound([run], [rs], st) == FireRun(run, rs, |rs|, st)
  {
    hide FireRun;
    assert [run][..0] == [] && [rs][..0] == [];
    assert OwnRound([], [], st) == (st, []);
    Empties(FireRun(run, rs, |rs|, st).1);
  }

  /** The tail's four callbacks, whichever operation fails first. */
  lemma {:induction false} TailFires(p: Put, fd: int, rs: seq<Report>)
    requires fd >= 0 && Legal(Tail(Begun(p), fd), rs)
    ensures var run := Run(p.key, Tail(Begun(p), fd));
            var codes := [rs[0].res, rs[1].res, rs[2].res, rs[3].res];
            var (st, staged) := FireRun(run, rs, 4, Writing(p, fd));
            && Linked(codes)
            && Answered(st, Verdict(codes)) && st.log == TailLog(p, fd, codes) && staged == CleanupRuns(p, fd, codes)
  {
    var run, st0 := Run(p.key, Tail(Begun(p), fd)), Writing(p, fd);
    var (st1, a) := Fire(run.items[0], rs[0], p.key, st0);
    var (st2, b) := Fire(run.items[1], rs[1], p.key, st1);
    var (st3, c) := Fire(run.items[2], rs[2], p.key, st2);
    var (st4, d) := Fire(run.items[3], rs[3], p.key, st3);
    assert FireRun(run, rs, 0, st0) == (st0, []);
    assert FireRun(run, rs, 1, st0) == (st1, [] + a);
    assert FireRun(run, rs, 2, st0) == (st2, [] + a + b);
    assert FireRun(run, rs, 3, st0) == (st3, [] + a + b + c);
    assert FireRun(run, rs, 4, st0) == (st4, [] + a + b + c + d);
    var codes := [rs[0].res, rs[1].res, rs[2].res, rs[3].res];
    assert st4.log == TailLog(p, fd, codes);
    if rs[0].res < 0 {
      assert rs[1].res < 0 && rs[2].res < 0 && rs[3].res < 0;
    } else if rs[1].res < 0 {
      assert rs[2].res < 0 && rs[3].res < 0;
    } else if rs[2].res < 0 {
      assert rs[3].res < 0;
    }
  }

  ghost predicate LegalAll(runs: seq<Run>, rss: seq<seq<Report>>) {
    |rss| == |runs| && forall i :: 0 <= i < |runs| ==> Legal(runs[i].items, rss[i])
  }

  /** A count short of the body is no failure: the write is made once, and the put succeeds with what it wrote. */
  lemma {:induction false} ShortWriteSucceeds(p: Put, fd: int, n: nat)
    requires fd >= 0 && n < |p.body|
    ensures var rs := [Report(n, Count(n)), Report(0, Nothing), Report(0, Nothing), Report(0, Nothing)];
            && Legal(Tail(Begun(p), fd), rs)
            && var st := FireRun(Run(p.key, Tail(Begun(p), fd)), rs, 4, Writing(p, fd)).0;
               Answered(st, Good) && (WriteOnce(fd, p.body), n as int) in st.log
  {
    hide FireRun;
    var rs := [Report(n, Count(n)), Report(0, Nothing), Report(0, Nothing), Report(0, Nothing)];
    TailFires(p, fd, rs);
    var log := TailLog(p, fd, [n, 0, 0, 0]);
    assert exists i :: 0 <= i < |log| && log[i] == (WriteOnce(fd, p.body), n as int) by {
      assert log[1] == (WriteOnce(fd, p.body), n as int);
    }
  }

  /** Whatever the system calls report, a success of this put means that its whole body was written. */
  ghost predicate SuccessIsWhole(p: Put, fd: int) {
    forall rs: seq<Report> :: Legal(Tail(Begun(p), fd), rs) && rs[0].res <= |p.body| ==>
      Answered(FireRun(Run(p.key, Tail(Begun(p), fd)), rs, 4, Writing(p, fd)).0, Good) ==> rs[0].res == |p.body|
  }

  /** That can be relied on for the empty body, and for no other. */
  lemma {:induction false} WholeBodyIff(p: Put, fd: int)
    requires fd >= 0
    ensures SuccessIsWhole(p, fd) <==> p.body == []
  {
    hide FireRun, Answered;
    var run := Run(p.key, Tail(Begun(p), fd));
    if p.body == [] {
      forall rs: seq<Report> | Legal(Tail(Begun(p), fd), rs) && rs[0].res <= |p.body|
        ensures Answered(FireRun(run, rs, 4, Writing(p, fd)).0, Good) ==> rs[0].res == |p.body|
      {
        WriteAnswered(p, fd, rs);
      }
    } else {
      ShortWriteSucceeds(p, fd, 0);
      var rs := [Report(0, Count(0)), Report(0, Nothing), Report(0, Nothing), Report(0, Nothing)];
      assert rs[0].res != |p.body|;
      assert Legal(Tail(Begun(p), fd), rs);
    }
  }

  lemma {:induction false} WriteAnswered(p: Put, fd: int, rs: seq<Report>)
    requires fd >= 0 && Legal(Tail(Begun(p), fd), rs)
    ensures Answered(FireRun(Run(p.key, Tail(Begun(p), fd)), rs, 4, Writing(p, fd)).0, Good) ==> rs[0].res >= 0
  {
    TailFires(p, fd, rs);
    hide FireRun;
  }

  lemma {:induction false} OpeningFires(p: Put, r: Report)
    requires Sane(Opening(p), r)
    ensures var (st, mine) := Fire(Item(Opening(p), OnTmpOpen), r, p.key, Begun(p)); PutAt(p, st, mine)
  {
    var (st, mine) := Fire(Item(Opening(p), OnTmpOpen), r, p.key, Begun(p));
    Empties([(Opening(p), r.res)]);
    if r.res >= 0 {
      assert st == Writing(p, r.res) && mine == [Run(p.key, Tail(Begun(p), r.res))];
    } else {
      assert st.log == [(Opening(p), r.res)] && Answered(st, Failed(r.res));
    }
  }

  lemma {:induction false} CleanupFires(p: Put, st: Req, fd: int, rs: seq<int>, rss: seq<seq<Report>>)
    requires fd >= 0 && |rs| == 4 && Linked(rs) && Answered(st, Verdict(rs)) && st.log == TailLog(p, fd, rs)
    requires LegalAll(CleanupRuns(p, fd, rs), rss)
    ensures var runs := CleanupRuns(p, fd, rs);
            && (forall i :: 0 <= i < |runs| ==> |rss[i]| == |runs[i].items|)
            && var (after, mine) := OwnRound(runs, rss, st); Committed(p, after, mine, fd, rs)
  {
    hide Verdict, TailLog, Legal;
    var runs, ops := CleanupRuns(p, fd, rs), Cleanup(p, fd, rs);
    LegalLengths(runs, rss);
    if |runs| == 1 {
      assert rss == [rss[0]] && |rss[0]| == 1;
      OneFires(runs[0], rss[0], st);
      var (after, mine) := OwnRound(runs, rss, st);
      assert after.log == st.log + [(ops[0], rss[0][0].res)];
      assert Cleaned(p, after, fd, rs, [rss[0][0].res]);
    } else {
      assert runs[..1] == [runs[0]] && rss[..1] == [rss[0]] && |rss[0]| == 1 && |rss[1]| == 1;
      OneFires(runs[0], rss[0], st);
      var (mid, none) := Fire(runs[0].items[0], rss[0][0], p.key, st);
      OneFires(runs[1], rss[1], mid);
      var (after, mine) := OwnRound(runs, rss, st);
      assert after.log == st.log + [(ops[0], rss[0][0].res)] + [(ops[1], rss[1][0].res)];
      var c := [rss[0][0].res, rss[1][0].res];
      assert after.log == st.log + seq(|c|, i requires 0 <= i < |c| => (ops[i], c[i]));
      assert Cleaned(p, after, fd, rs, c);
    }
  }

  /** Every round moves a put from one of its states to another. */
  lemma {:induction false} PutRound(p: Put, st: Req, mine: seq<Run>, rss: seq<seq<Report>>)
    requires PutAt(p, st, mine) && LegalAll(mine, rss)
    ensures forall i :: 0 <= i < |mine| ==> |rss[i]| == |mine[i].items|
    ensures var (after, next) := OwnRound(mine, rss, st); PutAt(p, after, next)
  {
    LegalLengths(mine, rss);
    hide OwnRound, Committed, Legal, Tail;
    if st == Begun(p) && mine == [One(p.key, Opening(p), OnTmpOpen)] {
      RoundOpening(p, rss);
    } else if mine == [] {
      OwnNothing(st, rss);
    } else if fd: int :| fd >= 0 && st == Writing(p, fd) && mine == [Run(p.key, Tail(Begun(p), fd))] {
      RoundWriting(p, fd, rss);
    } else {
      var fd: int, rs: seq<int> :| Committed(p, st, mine, fd, rs);
      RoundCleanup(p, st, mine, fd, rs, rss);
    }
  }

  lemma {:induction false} OwnNothing(st: Req, rss: seq<seq<Report>>)
    requires rss == []
    ensures OwnRound([], rss, st) == (st, [])
  {
  }

  lemma {:induction false} RoundOpening(p: Put, rss: seq<seq<Report>>)
    requires LegalAll([One(p.key, Opening(p), OnTmpOpen)], rss)
    ensures |rss| == 1 && |rss[0]| == 1
    ensures var (after, next) := OwnRound([One(p.key, Opening(p), OnTmpOpen)], rss, Begun(p)); PutAt(p, after, next)
  {
    hide Fire, FireRun, PutAt, OwnRound;
    var run := One(p.key, Opening(p), OnTmpOpen);
    assert Legal(run.items, rss[0]) && rss == [rss[0]];
    OneFires(run, rss[0], Begun(p));
    OpeningFires(p, rss[0][0]);
  }

  lemma {:induction false} RoundWriting(p: Put, fd: int, rss: seq<seq<Report>>)
    requires fd >= 0 && LegalAll([Run(p.key, Tail(Begun(p), fd))], rss)
    ensures |rss| == 1 && |rss[0]| == 4
    ensures var (after, next) := OwnRound([Run(p.key, Tail(Begun(p), fd))], rss, Writing(p, fd)); PutAt(p, after, next)
  {
    hide FireRun, OwnRound, TailLog, Verdict, CleanupRuns, Answered;
    var run := Run(p.key, Tail(Begun(p), fd));
    assert Legal(run.items, rss[0]) && rss == [rss[0]];
    OwnOne(run, rss[0], Writing(p, fd));
    TailFires(p, fd, rss[0]);
    var codes := [rss[0][0].res, rss[0][1].res, rss[0][2].res, rss[0][3].res];
    var (after, next) := OwnRound([run], rss, Writing(p, fd));
    assert Committed(p, after, next, fd, codes);
  }

  lemma {:induction false} RoundCleanup(p: Put, st: Req, mine: seq<Run>, fd: int, rs: seq<int>, rss: seq<seq<Report>>)
    requires Committed(p, st, mine, fd, rs) && mine != [] && LegalAll(mine, rss)
    ensures forall i :: 0 <= i < |mine| ==> |rss[i]| == |mine[i].items|
    ensures var (after, next) := OwnRound(mine, rss, st); PutAt(p, after, next)
  {
    hide OwnRound, TailLog, Verdict, CleanupRuns, Answered;
    LegalLengths(mine, rss);
    CleanupFires(p, st, fd, rs, rss);
  }

  // ----- a lookup

  function Asked(q: Stat): Req {
    NewReq(q.dir, "", q.name, [])
  }

  /** The name was looked up with result `res`. */
  function Looked(q: Stat, res: int): seq<(Op, int)> {
    [(StatIsDir(q.dir, q.name), res)]
  }

  /** And then opened, for reading, with result `fd`. */
  function Opened(q: Stat, res: int, fd: int): seq<(Op, int)> {
    [(StatIsDir(q.dir, q.name), res), (OpenAt(q.dir, q.name, false), fd)]
  }

  /**
    A lookup with nothing left staged: answered from the lookup alone, or by a failure to open, or opened and
    closed again, once.
  */
  ghost predicate Found(q: Stat, st: Req) {
    || (exists res: int :: st.log == Looked(q, res) && (Answered(st, Good) || Answered(st, Failed(res))))
    || (exists res: int, fd: int :: fd < 0 && st.log == Opened(q, res, fd) && Answered(st, Failed(fd)))
    || (exists res: int, fd: int, closed: int ::
          fd >= 0 && st.log == Opened(q, res, fd) + [(CloseFd(fd), closed)] && Answered(st, Good))
  }

  /** Where a lookup can stand between rounds. */
  ghost predicate StatAt(q: Stat, st: Req, mine: seq<Run>) {
    || (st == Asked(q) && mine == [One(q.key, StatIsDir(q.dir, q.name), OnStat)])
    || (exists res: int :: st == Asked(q).(log := Looked(q, res))
                           && mine == [One(q.key, OpenAt(q.dir, q.name, false), OnOpen)])
    || (exists res: int, fd: int :: fd >= 0 && st.log == Opened(q, res, fd) && Answered(st, Good)
                                    && mine == [One(q.key, CloseFd(fd), Ignore)])
    || (mine == [] && Found(q, st))
  }

  /** A directory is answered at once and never opened, a file is opened, and a failure is reported. */
  lemma {:induction false} StatFires(q: Stat, r: Report)
    requires Sane(StatIsDir(q.dir, q.name), r)
    ensures var (st, mine) := Fire(Item(StatIsDir(q.dir, q.name), OnStat), r, q.key, Asked(q));
            && st.log == Looked(q, r.res) && StatAt(q, st, mine)
            && (if r.out == IsDir(true) then Answered(st, Good) && mine == []
                else if r.out == IsDir(false) then st.owed && mine == [One(q.key, OpenAt(q.dir, q.name, false), OnOpen)]
                else Answered(st, Failed(r.res)) && mine == [])
  {
    var (st, mine) := Fire(Item(StatIsDir(q.dir, q.name), OnStat), r, q.key, Asked(q));
    Empties(Looked(q, r.res));
    assert st.log == Looked(q, r.res);
  }

  lemma {:induction false} OpenFires(q: Stat, res: int, r: Report)
    requires Sane(OpenAt(q.dir, q.name, false), r)
    ensures var st := Asked(q).(log := Looked(q, res));
            var (after, mine) := Fire(Item(OpenAt(q.dir, q.name, false), OnOpen), r, q.key, st); StatAt(q, after, mine)
  {
    var st := Asked(q).(log := Looked(q, res));
    var (after, mine) := Fire(Item(OpenAt(q.dir, q.name, false), OnOpen), r, q.key, st);
    assert after.log == Opened(q, res, r.res);
  }

  lemma {:induction false} CloseFires(q: Stat, res: int, fd: int, st: Req, r: Report)
    requires fd >= 0 && st.log == Opened(q, res, fd) && Answered(st, Good)
    ensures var (after, mine) := Fire(Item(CloseFd(fd), Ignore), r, q.key, st); StatAt(q, after, mine)
  {
    var (after, mine) := Fire(Item(CloseFd(fd), Ignore), r, q.key, st);
    assert after.log == Opened(q, res, fd) + [(CloseFd(fd), r.res)] && Answered(after, Good);
  }

  /** Every round moves a lookup from one of its states to another. */
  lemma {:induction false} StatRound(q: Stat, st: Req, mine: seq<Run>, rss: seq<seq<Report>>)
    requires StatAt(q, st, mine) && LegalAll(mine, rss)
    ensures forall i :: 0 <= i < |mine| ==> |rss[i]| == |mine[i].items|
    ensures var (after, next) := OwnRound(mine, rss, st); StatAt(q, after, next)
  {
    LegalLengths(mine, rss);
    hide OwnRound, Fire, FireRun, Found;
    if mine == [] {
      OwnNothing(st, rss);
    } else {
      var run := mine[0];
      assert mine == [run] && rss == [rss[0]] && Legal(run.items, rss[0]);
      OneFires(run, rss[0], st);
      if run.items[0].cb == OnStat {
        StatFires(q, rss[0][0]);
      } else if run.items[0].cb == OnOpen {
        var res: int :| st == Asked(q).(log := Looked(q, res));
        OpenFires(q, res, rss[0][0]);
      } else {
        var res: int, fd: int :| fd >= 0 && st.log == Opened(q, res, fd) && Answered(st, Good)
                                 && mine == [One(q.key, CloseFd(fd), Ignore)];
        CloseFires(q, res, fd, st, rss[0][0]);
      }
    }
  }

  // ----- every run

  ghost predicate Inv(sys: Sys) {
    && (forall i :: 0 <= i < |sys.stats| ==> sys.stats[i].key < |sys.reqs|)
    && (forall i :: 0 <= i < |sys.stats| ==> StatAt(sys.stats[i], sys.reqs[sys.stats[i].key],
                                                    Mine(sys.staged, sys.stats[i].key)))
    && (forall i :: 0 <= i < |sys.staged| ==> sys.staged[i].key < |sys.reqs|)
    && (forall i :: 0 <= i < |sys.puts| ==> sys.puts[i].key < |sys.reqs|)
    && (forall i :: 0 <= i < |sys.puts| ==> PutAt(sys.puts[i], sys.reqs[sys.puts[i].key],
                                                  Mine(sys.staged, sys.puts[i].key)))
  }

  lemma {:induction false} MineNew(runs: seq<Run>, k: nat)
    requires forall i :: 0 <= i < |runs| ==> runs[i].key < k
    ensures Mine(runs, k) == []
    decreases |runs|
  {
    if runs != [] {
      MineNew(runs[..|runs| - 1], k);
    }
  }

  lemma {:induction false} MineOne(run: Run, k: nat)
    ensures Mine([run], k) == if run.key == k then [run] else []
  {
    assert [run][..0] == [];
    assert Mine([], k) == [];
  }

  lemma {:induction false} RoundKeys(runs: seq<Run>, rss: seq<seq<Report>>, reqs: seq<Req>)
    requires |rss| == |runs| && forall i :: 0 <= i < |runs| ==> runs[i].key < |reqs| && |rss[i]| == |runs[i].items|
    ensures forall i :: 0 <= i < |Round(runs, rss, reqs).1| ==> Round(runs, rss, reqs).1[i].key < |reqs|
    decreases |runs|
  {
    hide FireRun;
    if runs != [] {
      var n := |runs| - 1;
      RoundKeys(runs[..n], rss[..n], reqs);
      var before := Round(runs[..n], rss[..n], reqs).0;
      FireOwns(runs[n], rss[n], |runs[n].items|, before[runs[n].key]);
    }
  }

  lemma {:induction false} BeginKeeps(sys: Sys, st: Req, run: Run)
    requires Inv(sys) && run.key == |sys.reqs|
    ensures Inv(sys.(reqs := sys.reqs + [st], staged := sys.staged + [run]))
    ensures Mine(sys.staged + [run], run.key) == [run]
  {
    hide PutAt, StatAt, Mine;
    MineNew(sys.staged, run.key);
    MineOne(run, run.key);
    MineAppend(sys.staged, [run], run.key);
    assert [] + [run] == [run];
    forall k: nat | k < run.key
      ensures Mine(sys.staged + [run], k) == Mine(sys.staged, k)
    {
      MineAppend(sys.staged, [run], k);
      MineOne(run, k);
      Empties(Mine(sys.staged, k));
    }
  }

  lemma {:induction false} RoundKeeps(sys: Sys, rss: seq<seq<Report>>)
    requires Inv(sys) && Enabled(sys, RunRound(rss))
    ensures Inv(Act(sys, RunRound(rss)))
  {
    hide PutAt, StatAt, Round;
    var next := Act(sys, RunRound(rss));
    LegalLengths(sys.staged, rss);
    RoundKeys(sys.staged, rss, sys.reqs);
    forall i | 0 <= i < |sys.puts|
      ensures PutAt(sys.puts[i], next.reqs[sys.puts[i].key], Mine(next.staged, sys.puts[i].key))
    {
      var p := sys.puts[i];
      RoundIsOwn(sys.staged, rss, sys.reqs, p.key);
      MyResultsFit(sys.staged, rss, p.key);
      PutRound(p, sys.reqs[p.key], Mine(sys.staged, p.key), MyResults(sys.staged, rss, p.key));
    }
    forall i | 0 <= i < |sys.stats|
      ensures StatAt(sys.stats[i], next.reqs[sys.stats[i].key], Mine(next.staged, sys.stats[i].key))
    {
      var q := sys.stats[i];
      RoundIsOwn(sys.staged, rss, sys.reqs, q.key);
      MyResultsFit(sys.staged, rss, q.key);
      StatRound(q, sys.reqs[q.key], Mine(sys.staged, q.key), MyResults(sys.staged, rss, q.key));
    }
  }

  lemma {:induction false} ActKeeps(sys: Sys, a: Action)
    requires Inv(sys) && Enabled(sys, a)
    ensures Inv(Act(sys, a))
  {
    match a
    case RunRound(rss) => RoundKeeps(sys, rss);
    case BeginStat(dir, name) =>
      var q := Stat(|sys.reqs|, dir, name);
      BeginKeeps(sys, Asked(q), One(q.key, StatIsDir(dir, name), OnStat));
      NewStat(sys, q);
    case BeginPut(dir, tmp, fin, body) =>
      var p := Put(|sys.reqs|, dir, tmp, fin, body);
      BeginKeeps(sys, Begun(p), One(p.key, Opening(p), OnTmpOpen));
      NewPut(sys, p);
  }

  lemma {:induction false} NewPut(sys: Sys, p: Put)
    requires p.key == |sys.reqs|
             && Mine(sys.staged + [One(p.key, Opening(p), OnTmpOpen)], p.key) == [One(p.key, Opening(p), OnTmpOpen)]
    requires Inv(sys.(reqs := sys.reqs + [Begun(p)], staged := sys.staged + [One(p.key, Opening(p), OnTmpOpen)]))
    ensures Inv(Sys(sys.reqs + [Begun(p)], sys.staged + [One(p.key, Opening(p), OnTmpOpen)], sys.puts + [p],
                    sys.stats))
  {
    var reqs, staged := sys.reqs + [Begun(p)], sys.staged + [One(p.key, Opening(p), OnTmpOpen)];
    assert PutAt(p, reqs[p.key], Mine(staged, p.key));
    hide PutAt, StatAt, Mine;
  }

  lemma {:induction false} NewStat(sys: Sys, q: Stat)
    requires q.key == |sys.reqs|
    requires var run := One(q.key, StatIsDir(q.dir, q.name), OnStat); Mine(sys.staged + [run], q.key) == [run]
    requires Inv(sys.(reqs := sys.reqs + [Asked(q)],
                      staged := sys.staged + [One(q.key, StatIsDir(q.dir, q.name), OnStat)]))
    ensures Inv(Sys(sys.reqs + [Asked(q)], sys.staged + [One(q.key, StatIsDir(q.dir, q.name), OnStat)], sys.puts,
                    sys.stats + [q]))
  {
    var reqs, staged := sys.reqs + [Asked(q)], sys.staged + [One(q.key, StatIsDir(q.dir, q.name), OnStat)];
    assert StatAt(q, reqs[q.key], Mine(staged, q.key));
    hide PutAt, StatAt, Mine;
  }

  const IDLE: Sys := Sys([], [], [], [])

  /** A run: every action possible when it is taken. */
  ghost predicate Plays(sys: Sys, actions: seq<Action>)
    decreases |actions|
  {
    actions == [] || (Enabled(sys, actions[0]) && Plays(Act(sys, actions[0]), actions[1..]))
  }

  ghost function Played(sys: Sys, actions: seq<Action>): Sys
    requires Plays(sys, actions)
    decreases |actions|
  {
    if actions == [] then sys else Played(Act(sys, actions[0]), actions[1..])
  }

  lemma {:induction false} PlayKeeps(sys: Sys, actions: seq<Action>)
    requires Inv(sys) && Plays(sys, actions)
    ensures Inv(Played(sys, actions))
    decreases |actions|
  {
    hide Inv, Act, Enabled;
    if actions != [] {
      ActKeeps(sys, actions[0]);
      PlayKeeps(Act(sys, actions[0]), actions[1..]);
    }
  }

  function Closes(log: seq<(Op, int)>, fd: int): nat {
    if log == [] then 0 else Closes(log[..|log| - 1], fd) + if log[|log| - 1].0 == CloseFd(fd) then 1 else 0
  }

  lemma {:induction false} ClosesAppend(log: seq<(Op, int)>, e: (Op, int), fd: int)
    ensures Closes(log + [e], fd) == Closes(log, fd) + if e.0 == CloseFd(fd) then 1 else 0
  {
    assert (log + [e])[..|log|] == log;
  }

  lemma {:induction false} TailCloses(p: Put, fd: int, rs: seq<int>, x: int)
    requires |rs| == 4
    ensures Closes(TailLog(p, fd, rs), x) == 0
  {
    var t := TailLog(p, fd, rs);
    ClosesAppend([], t[0], x);
    ClosesAppend([] + [t[0]], t[1], x);
    ClosesAppend([] + [t[0]] + [t[1]], t[2], x);
    ClosesAppend([] + [t[0]] + [t[1]] + [t[2]], t[3], x);
    ClosesAppend([] + [t[0]] + [t[1]] + [t[2]] + [t[3]], t[4], x);
    assert t == [] + [t[0]] + [t[1]] + [t[2]] + [t[3]] + [t[4]];
  }

  /** The answer is a success when nothing failed, and otherwise the first failure. */
  ghost predicate Reports(st: Req, rs: seq<int>) {
    if forall i :: 0 <= i < |rs| ==> rs[i] >= 0 then Answered(st, Good)
    else
      exists k :: 0 <= k < |rs| && rs[k] < 0 && (forall j :: 0 <= j < k ==> rs[j] >= 0) && Answered(st, Failed(rs[k]))
  }

  /**
    A put with nothing left staged: the temporary file could not be made, or its tail ran in order, a file that was
    not published was removed, and the file was closed, once; and the result went out once.
  */
  ghost predicate Settled(p: Put, st: Req) {
    || (exists res: int :: res < 0 && st.log == [(OpenAt(p.dir, p.tmp, true), res)] && Answered(st, Failed(res)))
    || (exists fd: int, rs: seq<int>, unlinked: int, closed: int ::
          && fd >= 0 && |rs| == 4 && Linked(rs) && Reports(st, rs) && Closes(st.log, fd) == 1
          && st.log == TailLog(p, fd, rs) + (if rs[2] < 0 then [(Unlink(p.dir, p.tmp), unlinked)] else [])
                       + [(CloseFd(fd), closed)])
  }

  lemma {:induction false} CleanedCloses(p: Put, st: Req, fd: int, rs: seq<int>, c: seq<int>)
    requires |rs| == 4 && Cleaned(p, st, fd, rs, c)
    ensures Closes(st.log, fd) == 1
    ensures st.log == TailLog(p, fd, rs) + if |c| == 1 then [(CloseFd(fd), c[0])]
                                           else [(Unlink(p.dir, p.tmp), c[0])] + [(CloseFd(fd), c[1])]
  {
    var base, ops := TailLog(p, fd, rs), Cleanup(p, fd, rs);
    TailCloses(p, fd, rs, fd);
    if |c| == 1 {
      assert st.log == base + [(ops[0], c[0])];
      ClosesAppend(base, (ops[0], c[0]), fd);
    } else {
      assert st.log == base + [(ops[0], c[0])] + [(ops[1], c[1])];
      ClosesAppend(base, (ops[0], c[0]), fd);
      ClosesAppend(base + [(ops[0], c[0])], (ops[1], c[1]), fd);
    }
  }

  lemma {:induction false} VerdictReports(st: Req, rs: seq<int>)
    requires |rs| == 4 && Answered(st, Verdict(rs))
    ensures Reports(st, rs)
  {
    hide Answered;
    var k := if rs[0] < 0 then 0 else if rs[1] < 0 then 1 else if rs[2] < 0 then 2 else 3;
    if rs[k] < 0 {
      assert Answered(st, Failed(rs[k]));
    }
  }

  lemma {:induction false} IdlePutIsSettled(p: Put, st: Req)
    requires PutAt(p, st, [])
    ensures Settled(p, st)
  {
    hide TailLog, Verdict, Reports, Closes;
    if fd: int, rs: seq<int> :| Committed(p, st, [], fd, rs) {
      var c: seq<int> :| Cleaned(p, st, fd, rs, c);
      CleanedCloses(p, st, fd, rs, c);
      VerdictReports(st, rs);
      CommittedIsSettled(p, st, fd, rs, c);
    }
  }

  lemma {:induction false} CommittedIsSettled(p: Put, st: Req, fd: int, rs: seq<int>, c: seq<int>)
    requires fd >= 0 && |rs| == 4 && Linked(rs) && Reports(st, rs) && Closes(st.log, fd) == 1
    requires |c| == |Cleanup(p, fd, rs)|
    requires st.log == TailLog(p, fd, rs) + if |c| == 1 then [(CloseFd(fd), c[0])]
                                            else [(Unlink(p.dir, p.tmp), c[0])] + [(CloseFd(fd), c[1])]
    ensures Settled(p, st)
  {
    hide TailLog, Reports, Closes;
    var unlinked, closed := c[0], c[|c| - 1];
    var base := TailLog(p, fd, rs);
    Empties(base);
    AppendAppend(base, [(Unlink(p.dir, p.tmp), unlinked)], [(CloseFd(fd), closed)]);
    assert st.log == base + (if rs[2] < 0 then [(Unlink(p.dir, p.tmp), unlinked)] else []) + [(CloseFd(fd), closed)];
  }

  lemma {:induction false} PutAnswersOnce(p: Put, st: Req, mine: seq<Run>)
    requires PutAt(p, st, mine)
    ensures |st.delivered| <= 1 && (st.owed <==> st.delivered == [])
  {
  }

  /**
    Over every run, with any number of requests interleaved and any operations failing: a put's caller gets at
    most one result; once nothing is staged for it the caller has had exactly one, a success exactly when write,
    flush, publish and directory flush all succeeded; and a temporary file that was opened is closed exactly once.
  */
  lemma {:induction false} EveryPut(actions: seq<Action>, i: nat)
    requires Plays(IDLE, actions) && i < |Played(IDLE, actions).puts|
    ensures var sys := Played(IDLE, actions);
            var p := sys.puts[i];
            && p.key < |sys.reqs|
            && |sys.reqs[p.key].delivered| <= 1
            && (Mine(sys.staged, p.key) == [] ==> Settled(p, sys.reqs[p.key]))
  {
    PlayKeeps(IDLE, actions);
    hide Played, Plays, PutAt, Settled;
    var sys := Played(IDLE, actions);
    var p := sys.puts[i];
    PutAnswersOnce(p, sys.reqs[p.key], Mine(sys.staged, p.key));
    if Mine(sys.staged, p.key) == [] {
      IdlePutIsSettled(p, sys.reqs[p.key]);
    }
  }

  /** What was published was written and flushed before. */
  ghost predicate FlushedFirst(p: Put, log: seq<(Op, int)>) {
    forall j :: 0 <= j < |log| && log[j].0.Rename? && log[j].1 >= 0 ==>
      j >= 2 && log[j].0 == Rename(p.dir, p.tmp, p.dir, p.fin)
      && log[j - 2].0.WriteOnce? && log[j - 2].0.data == p.body && log[j - 2].1 >= 0
      && log[j - 1] == (Fsync(log[j - 2].0.fd), log[j - 1].1) && log[j - 1].1 >= 0
  }

  lemma {:induction false} TailFlushes(p: Put, fd: int, rs: seq<int>, rest: seq<(Op, int)>)
    requires |rs| == 4 && Linked(rs) && forall i :: 0 <= i < |rest| ==> !rest[i].0.Rename?
    ensures FlushedFirst(p, TailLog(p, fd, rs) + rest)
  {
    var t, log := TailLog(p, fd, rs), TailLog(p, fd, rs) + rest;
    assert log[0] == t[0] && log[1] == t[1] && log[2] == t[2] && log[3] == t[3] && log[4] == t[4];
    assert forall j :: 5 <= j < |log| ==> log[j] == rest[j - 5];
    assert forall j :: 0 <= j < |log| && log[j].0.Rename? ==> j == 3;
    if rs[2] >= 0 {
      assert rs[0] >= 0 && rs[1] >= 0;
    }
  }

  lemma {:induction false} PutFlushes(p: Put, st: Req, mine: seq<Run>)
    requires PutAt(p, st, mine)
    ensures FlushedFirst(p, st.log)
  {
    hide Tail, Verdict, CleanupRuns, TailLog, Linked, Answered;
    if fd: int, rs: seq<int> :| Committed(p, st, mine, fd, rs) {
      hide FlushedFirst;
      if st.log == TailLog(p, fd, rs) {
        Empties(st.log);
        TailFlushes(p, fd, rs, []);
      } else {
        var c: seq<int> :| Cleaned(p, st, fd, rs, c);
        TailFlushes(p, fd, rs, seq(|c|, i requires 0 <= i < |c| => (Cleanup(p, fd, rs)[i], c[i])));
      }
    }
  }

  /** Over every run, finished or not: a put publishes only what it has written and flushed. */
  lemma {:induction false} PublishedIsFlushed(actions: seq<Action>, i: nat)
    requires Plays(IDLE, actions) && i < |Played(IDLE, actions).puts|
    ensures var sys := Played(IDLE, actions);
            sys.puts[i].key < |sys.reqs| && FlushedFirst(sys.puts[i], sys.reqs[sys.puts[i].key].log)
  {
    PlayKeeps(IDLE, actions);
    hide Played, Plays, PutAt, FlushedFirst;
    var sys := Played(IDLE, actions);
    PutFlushes(sys.puts[i], sys.reqs[sys.puts[i].key], Mine(sys.staged, sys.puts[i].key));
  }

  /**
    Over every run: a lookup's caller gets at most one result; once nothing is staged for it, exactly one, and a file
    that was opened for it, by the name asked for and for reading, was closed, once.
  */
  lemma {:induction false} EveryStat(actions: seq<Action>, i: nat)
    requires Plays(IDLE, actions) && i < |Played(IDLE, actions).stats|
    ensures var sys := Played(IDLE, actions);
            var q := sys.stats[i];
            && q.key < |sys.reqs|
            && |sys.reqs[q.key].delivered| <= 1
            && (Mine(sys.staged, q.key) == [] ==> Found(q, sys.reqs[q.key]))
  {
    PlayKeeps(IDLE, actions);
    hide Played, Plays, StatAt, Found;
    var sys := Played(IDLE, actions);
    var q := sys.stats[i];
    StatAnswersOnce(q, sys.reqs[q.key], Mine(sys.staged, q.key));
  }

  lemma {:induction false} StatAnswersOnce(q: Stat, st: Req, mine: seq<Run>)
    requires StatAt(q, st, mine)
    ensures |st.delivered| <= 1 && (mine == [] ==> Found(q, st))
  {
  }
}
