/** Reading a response body within the budget: kept bytes are reserved first, the rest is only counted. */
module BodyReader {
  import opened BudgetLedger

  type Byte = bv8

  /** What a body without a declared length reserves before its first read. */
  const UnknownLengthFirstRead := 64 * 1024
  const MinBodyGrowth := 512

  class ResponseBudget {
    const size: int
    var inUse: int
    ghost var held: map<Rid, int>
    ghost var kept: map<Rid, int>
    ghost var nextId: Rid

    ghost function Now(): Shares
      reads this
    {
      Shares(size, inUse, held, kept)
    }

    ghost predicate Valid()
      reads this
    {
      size > 0 && Balanced(Now()) && Covered(Now()) && forall k :: k in held || k in kept ==> k < nextId
    }

    constructor (size: int)
      requires size > 0
      ensures Valid() && Now() == Shares(size, 0, map[], map[]) && this.size == size
    {
      this.size, inUse, held, kept, nextId := size, 0, map[], map[], 0;
    }

    /** acquire: the semaphore grants the bytes once they are free, or the request times out first. */
    method Acquire(n: int, ghost k: Rid) returns (granted: bool)
      requires n > 0
      modifies this`inUse, this`held
      ensures granted ==> old(inUse) + n <= size && inUse == old(inUse) + n && held == old(held)[k := Held(old(held), k) + n]
      ensures !granted ==> inUse == old(inUse) && held == old(held)
    {
      var timedOut: bool := *;
      if timedOut || inUse + n > size {
        return false;
      }
      inUse := inUse + n;
      held := held[k := Held(held, k) + n];
      return true;
    }

    method Release(n: int, ghost k: Rid)
      modifies this`inUse, this`held
      ensures inUse == old(inUse) - n && held == old(held)[k := Held(old(held), k) - n]
    {
      inUse := inUse - n;
      held := held[k := Held(held, k) - n];
    }
  }

  class BodyReservation {
    const budget: ResponseBudget
    ghost const id: Rid
    var held: int

    ghost predicate Valid()
      reads this, budget
    {
      budget.Valid() && id < budget.nextId && held == Held(budget.held, id) >= 0
    }

    constructor (budget: ResponseBudget)
      requires budget.Valid()
      modifies budget`nextId
      ensures Valid() && this.budget == budget && held == 0 && budget.Now() == old(budget.Now())
    {
      this.budget, this.id, held := budget, budget.nextId, 0;
      new;
      budget.nextId := budget.nextId + 1;
    }

    /** growTo: covers n body bytes, or the whole budget when they cost more. */
    method GrowTo(n: int) returns (granted: bool)
      requires Valid() && n >= 0
      modifies this`held, budget`inUse, budget`held
      ensures Valid()
      ensures granted ==> Grows(old(budget.Now()), budget.Now(), id, n) && held == Max(old(held), Goal(budget.size, n))
      ensures granted ==> held == Max(old(held), if n * 2 < budget.size then n * 2 else budget.size)
      ensures !granted ==> budget.Now() == old(budget.Now()) && held == old(held)
    {
      var want := Min(n * BodyWeight, budget.size);
      if want <= held {
        return true;
      }
      granted := budget.Acquire(want - held, id);
      if granted {
        held := want;
        GrowKeeps(old(budget.Now()), budget.Now(), id, n);
      }
    }

    /** The body bytes this reservation pays for. */
    ghost function Kept(): int
      reads this, budget
    {
      Held(budget.kept, id)
    }

    /** The body now keeps n bytes, all of them reserved. */
    ghost method Keep(n: int)
      requires Valid() && n >= 0 && held >= Goal(budget.size, n)
      modifies budget`kept
      ensures Valid() && Keeps(old(budget.Now()), budget.Now(), id, n) && Kept() == n
    {
      budget.kept := budget.kept[id := n];
    }

    /** shrinkTo: gives back what is held past n body bytes. */
    method ShrinkTo(n: int)
      requires Valid() && n >= Kept() >= 0
      modifies this`held, budget`inUse, budget`held
      ensures Valid() && Shrinks(old(budget.Now()), budget.Now(), id, n) && held == Min(old(held), n * BodyWeight)
    {
      var keep := n * BodyWeight;
      if keep >= held {
        return;
      }
      budget.Release(held - keep, id);
      held := keep;
      ShrinkKeeps(old(budget.Now()), budget.Now(), id, n);
    }

    /** release: the body is given up first. */
    method Release()
      requires Valid()
      modifies this`held, budget`inUse, budget`held, budget`kept
      ensures Valid() && held == Kept() == 0 && budget.inUse == old(budget.inUse) - old(held)
      ensures Releases(old(budget.Now()), budget.Now(), id)
    {
      Keep(0);
      ShrinkTo(0);
      ReleaseKeeps(old(budget.Now()), budget.Now(), id);
    }
  }

  // ---- Reservations that may be absent

  function Footprint(hold: BodyReservation?): set<object> {
    if hold == null then {} else {hold, hold.budget}
  }

  ghost predicate Sound(hold: BodyReservation?)
    reads Footprint(hold)
  {
    hold != null ==> hold.Valid()
  }

  /** The reservation pays for exactly n kept bytes. */
  ghost predicate PaysFor(hold: BodyReservation?, n: int)
    reads Footprint(hold)
  {
    hold != null ==> hold.Kept() == n
  }

  /** Enough is held for n body bytes. */
  ghost predicate Covers(hold: BodyReservation?, n: int)
    reads Footprint(hold)
  {
    hold != null ==> hold.held >= Goal(hold.budget.size, n)
  }

  /** The bytes in use that are not this body's. */
  ghost function Others(hold: BodyReservation?): int
    reads Footprint(hold)
  {
    if hold == null then 0 else hold.budget.inUse - hold.held
  }

  /** A nil reservation is a no-op. */
  method GrowHold(hold: BodyReservation?, n: int) returns (granted: bool)
    requires Sound(hold) && n >= 0
    modifies Footprint(hold)
    ensures Sound(hold) && Others(hold) == old(Others(hold)) && (granted ==> Covers(hold, n)) && (!granted ==> hold != null)
    ensures hold != null ==> hold.held >= old(hold.held) && hold.budget.nextId == old(hold.budget.nextId)
    ensures hold != null ==> hold.Kept() == old(hold.Kept())
  {
    if hold == null {
      return true;
    }
    granted := hold.GrowTo(n);
  }

  method ReleaseHold(hold: BodyReservation?)
    requires Sound(hold)
    modifies Footprint(hold)
    ensures Sound(hold) && Others(hold) == old(Others(hold)) && (hold != null ==> hold.held == 0) && PaysFor(hold, 0)
    ensures hold != null ==> hold.budget.nextId == old(hold.budget.nextId)
  {
    if hold != null {
      hold.Release();
    }
  }

  // ---- Bodies

  datatype End = More | Eof | Broken

  /** How one Read goes: at most this many bytes, a failure, or an end reported only by the next Read. */
  datatype Chunk = Chunk(most: nat, fails: bool, late: bool)

  class Body {
    var rest: seq<Byte>
    var script: seq<Chunk>
    ghost var broken: bool

    constructor (content: seq<Byte>, script: seq<Chunk>)
      ensures rest == content && this.script == script && !broken
    {
      rest, this.script, broken := content, script, false;
    }

    /** io.Reader's Read into a buffer that is not empty. */
    method Read(space: int) returns (data: seq<Byte>, end: End)
      requires space > 0
      modifies this
      ensures old(rest) == data + rest && |data| <= space
      ensures end.Eof? ==> rest == []
      ensures broken <==> old(broken) || end.Broken?
      ensures |script| < |old(script)| || (script == old(script) == [] && (end.Eof? || |rest| < |old(rest)|))
    {
      var n := if |rest| < space then |rest| else space;
      if |script| == 0 {
        data, end := rest[..n], if n == |rest| then Eof else More;
        rest := rest[n..];
        return;
      }
      var chunk := script[0];
      script := script[1..];
      n := if chunk.most < n then chunk.most else n;
      end := if chunk.fails then Broken else if n == |rest| && !chunk.late then Eof else More;
      broken := broken || chunk.fails;
      data := rest[..n];
      rest := rest[n..];
    }
  }

  datatype Failure = TooLarge | ReadFailed | BudgetWait

  datatype Kept = Kept(data: seq<Byte>, capacity: int) | KeepFailed(why: Failure)

  datatype Counted = Counted(size: int) | CountFailed

  datatype ReadBody = ReadBody(data: seq<Byte>, capacity: int, size: int, hold: BodyReservation?) | NotRead(why: Failure)

  /** The declared length is unknown or right; a body that ends early is a failing Read. */
  predicate Declared(contentLength: int, content: seq<Byte>) {
    contentLength == -1 || contentLength == |content|
  }

  function First(content: seq<Byte>, n: int): seq<Byte>
    requires n >= 0
  {
    if n < |content| then content[..n] else content
  }

  lemma {:induction false} FirstOf(content: seq<Byte>, data: seq<Byte>, rest: seq<Byte>, keep: int)
    requires content == data + rest && |data| <= keep && (|data| == keep || rest == [])
    ensures data == First(content, keep)
  {
  }

  /** A full buffer grows once its growth is reserved. */
  method MakeRoom(hold: BodyReservation?, read: int, capacity: int, keep: int) returns (granted: bool, capacity': int)
    requires Sound(hold) && 0 <= read < keep && read <= capacity && Covers(hold, Min(capacity, keep))
    modifies Footprint(hold)
    ensures Sound(hold) && Others(hold) == old(Others(hold)) && (!granted ==> hold != null)
    ensures hold != null ==> hold.Kept() == old(hold.Kept()) && hold.budget.nextId == old(hold.budget.nextId)
    ensures granted ==> read < capacity' && Covers(hold, Min(capacity', keep)) && (read < capacity ==> capacity' == capacity)
  {
    if read < capacity {
      return true, capacity;
    }
    granted := GrowHold(hold, keep);
    var more := Min(Max(read, MinBodyGrowth), keep - read);
    capacity' :| capacity' >= read + more;
  }

  ghost method KeepHold(hold: BodyReservation?, n: int)
    requires Sound(hold) && n >= 0 && Covers(hold, n)
    modifies Footprint(hold)
    ensures Sound(hold) && Others(hold) == old(Others(hold)) && PaysFor(hold, n)
    ensures hold != null ==> hold.held == old(hold.held) && hold.budget.nextId == old(hold.budget.nextId)
  {
    if hold != null { hold.Keep(n); }
  }

  /** readKept: the first keep bytes, into a buffer that grows only once its growth is reserved. */
  method ReadKept(body: Body, contentLength: int, hold: BodyReservation?, reserve: int, keep: int) returns (r: Kept)
    requires Sound(hold) && 0 <= reserve <= keep && Covers(hold, reserve) && Declared(contentLength, body.rest)
    requires PaysFor(hold, 0)
    requires {body} !! Footprint(hold)
    modifies body, Footprint(hold)
    ensures Sound(hold) && Others(hold) == old(Others(hold)) && (old(body.broken) ==> body.broken)
    ensures hold != null ==> hold.budget.nextId == old(hold.budget.nextId)
    ensures r.Kept? ==> r.data == First(old(body.rest), keep) && old(body.rest) == r.data + body.rest
    ensures r.Kept? ==> |r.data| <= r.capacity && PaysFor(hold, |r.data|) && Covers(hold, Min(r.capacity, keep)) && body.broken == old(body.broken)
    ensures r.Kept? && contentLength >= 0 && reserve == Min(keep, contentLength) ==> r.capacity == reserve
    ensures r.KeepFailed? ==> r.why != TooLarge && (r.why.ReadFailed? ==> body.broken) && (r.why.BudgetWait? ==> hold != null)
  {
    ghost var content := body.rest;
    var data: seq<Byte>, capacity := [], reserve;
    while true
      invariant content == data + body.rest && |data| <= keep && |data| <= capacity
      invariant Sound(hold) && Others(hold) == old(Others(hold)) && Covers(hold, Min(capacity, keep)) && PaysFor(hold, |data|)
      invariant hold != null ==> hold.budget.nextId == old(hold.budget.nextId)
      invariant body.broken == old(body.broken)
      invariant contentLength >= 0 && reserve == Min(keep, contentLength) ==> capacity == reserve
      decreases |body.script|, |body.rest|
    {
      var read := |data|;
      if read == keep || read == contentLength {
        FirstOf(content, data, body.rest, keep);
        return Kept(data, capacity);
      }
      var granted, room := MakeRoom(hold, read, capacity, keep);
      if !granted {
        return KeepFailed(BudgetWait);
      }
      capacity := room;
      var part, end := body.Read(Min(capacity, keep) - |data|);
      data := data + part;
      KeepHold(hold, |data|);
      match end
      case Eof =>
        FirstOf(content, data, body.rest, keep);
        return Kept(data, capacity);
      case Broken => return KeepFailed(ReadFailed);
      case More =>
    }
  }

  /** countRest: counts what follows the kept bytes, stopping one byte past the limit. */
  method CountRest(body: Body, read: int, limit: int) returns (r: Counted)
    requires 0 <= read
    modifies body
    ensures old(body.broken) ==> body.broken
    ensures r.Counted? ==> body.broken == old(body.broken)
    ensures r.Counted? ==> r.size == if read > limit then read else Min(read + |old(body.rest)|, limit + 1)
    ensures r.CountFailed? ==> body.broken
  {
    if read > limit {
      return Counted(read);
    }
    var total, left := read, limit + 1 - read;
    while left > 0
      invariant 0 <= left && total + left == limit + 1 && body.broken == old(body.broken)
      invariant total + |body.rest| == read + |old(body.rest)|
      decreases |body.script|, |body.rest|
    {
      var part, end := body.Read(Min(left, 32 * 1024));
      total, left := total + |part|, left - |part|;
      match end
      case Eof => return Counted(total);
      case Broken => return CountFailed;
      case More =>
    }
    return Counted(total);
  }

  /** reserveResponseBytes: no budget, nothing to reserve. */
  method Reserve(budget: ResponseBudget?, n: int) returns (granted: bool, hold: BodyReservation?)
    requires (budget != null ==> budget.Valid()) && n >= 0
    modifies budget
    ensures budget != null ==> budget.Valid()
    ensures granted && budget == null ==> hold == null
    ensures granted && budget != null ==> hold != null && fresh(hold) && hold.budget == budget && hold.Valid() && Covers(hold, n)
    ensures granted ==> PaysFor(hold, 0)
    ensures granted && budget != null ==> Others(hold) == old(budget.inUse)
    ensures !granted ==> budget != null && budget.inUse == old(budget.inUse)
  {
    if budget == null {
      return true, null;
    }
    var reservation := new BodyReservation(budget);
    granted := reservation.GrowTo(n);
    hold := if granted then reservation else null;
  }

  /**
   * readResponseBody. Success gives exactly the first min(keep, limit) bytes and the true length, with the kept bytes
   * reserved and nothing past what their buffer needs; every failure leaves the budget as it was.
   */
  method ReadResponseBody(budget: ResponseBudget?, body: Body, contentLength: int, limit: int, keep: int) returns (r: ReadBody)
    requires (budget != null ==> budget.Valid()) && 0 <= limit && 0 <= keep && Declared(contentLength, body.rest)
    requires !body.broken
    modifies body, budget
    ensures budget != null ==> budget.Valid()
    ensures r.ReadBody? ==> r.data == First(old(body.rest), Min(keep, limit)) && r.size == |old(body.rest)| <= limit
    ensures r.ReadBody? && budget == null ==> r.hold == null
    ensures r.ReadBody? && budget != null ==> r.hold != null && fresh(r.hold) && r.hold.budget == budget && r.hold.Valid()
    ensures r.ReadBody? ==> Covers(r.hold, |r.data|) && PaysFor(r.hold, |r.data|) && (budget != null ==> Others(r.hold) == old(budget.inUse))
    ensures r.ReadBody? ==> |r.data| <= r.capacity && (r.hold != null ==> r.hold.held <= r.capacity * BodyWeight)
    ensures r.ReadBody? && contentLength >= 0 ==> r.capacity == |r.data|
    ensures r.NotRead? && budget != null ==> budget.inUse == old(budget.inUse)
    ensures |old(body.rest)| > limit ==> r.NotRead?
    ensures r.NotRead? && r.why.TooLarge? ==> |old(body.rest)| > limit
    ensures r.NotRead? && r.why.ReadFailed? ==> body.broken
    ensures r.NotRead? && r.why.BudgetWait? ==> budget != null
  {
    if contentLength > limit {
      return NotRead(TooLarge);
    }
    var most := Min(keep, limit);
    var reserve := Min(most, if contentLength >= 0 then contentLength else UnknownLengthFirstRead);
    var granted, hold := Reserve(budget, reserve);
    if !granted {
      return NotRead(BudgetWait);
    }
    var kept := ReadKept(body, contentLength, hold, reserve, most);
    if kept.KeepFailed? {
      ReleaseHold(hold);
      return NotRead(kept.why);
    }
    var counted := CountRest(body, |kept.data|, limit);
    if counted.CountFailed? {
      ReleaseHold(hold);
      return NotRead(ReadFailed);
    }
    if counted.size > limit {
      ReleaseHold(hold);
      return NotRead(TooLarge);
    }
    if hold != null {
      hold.ShrinkTo(kept.capacity);
    }
    return ReadBody(kept.data, kept.capacity, counted.size, hold);
  }

  /** One attempt of evalExecutor: the body is read, evaluated, and given back whatever the evaluation says. */
  method Attempt(budget: ResponseBudget?, body: Body, contentLength: int, limit: int, keep: int) returns (read: bool)
    requires (budget != null ==> budget.Valid()) && 0 <= limit && 0 <= keep && Declared(contentLength, body.rest) && !body.broken
    modifies body, budget
    ensures budget != null ==> budget.Valid() && budget.inUse == old(budget.inUse)
  {
    var r := ReadResponseBody(budget, body, contentLength, limit, keep);
    if r.NotRead? {
      return false;
    }
    ReleaseHold(r.hold);
    return true;
  }

  /** However often a node is retried, its attempts hold nothing once they ended. */
  method Retried(budget: ResponseBudget?, bodies: seq<Body>, limit: int, keep: int)
    requires (budget != null ==> budget.Valid()) && 0 <= limit && 0 <= keep
    requires forall i :: 0 <= i < |bodies| ==> !bodies[i].broken
    requires forall i, j :: 0 <= i < j < |bodies| ==> bodies[i] != bodies[j]
    modifies (set b | b in bodies), budget
    ensures budget != null ==> budget.Valid() && budget.inUse == old(budget.inUse)
  {
    for i := 0 to |bodies|
      invariant budget != null ==> budget.Valid() && budget.inUse == old(budget.inUse)
      invariant forall j :: i <= j < |bodies| ==> !bodies[j].broken
    {
      var _ := Attempt(budget, bodies[i], -1, limit, keep);
    }
  }
}
