/**
 Deploying a payload over FTP: upload under a temporary name and verify by readback, park
 the outgoing payload under a hash-derived name, then rename the upload into place. Each
 operation of the server may fail, before or after taking effect.
 */
module Deploy {
  import Decimal
  import opened Options

  const PAYLOAD: string := "payload.bin"
  const UPLOAD: string := "payload.bin.gate"
  const PARKED: string := "payload.bin.prev-"
  const ATTEMPTS: nat := 3

  type Bytes = seq<int>
  type Name = string
  type Directory = map<Name, Bytes>

  /** The hexadecimal digest. */
  type Digest = Bytes -> string

  /**
   Whether a retrieval completes with the file, completes with other bytes (cut short, say),
   is refused with a permanent error, or breaks off.
   */
  datatype ReadAnswer = Whole | Sent(bytes: Bytes) | Refused | Dropped

  datatype Reading = Content(bytes: Bytes) | Denied | Lost

  /** What an upload leaves under its name, whatever it reports. */
  datatype Residue = Untouched | Gone | Holds(bytes: Bytes)

  /** One upload attempt: the transfer, its readback, and the reconnection before the next. */
  datatype Attempt = Attempt(reported: bool, residue: Residue, read: ReadAnswer, reconnects: bool)

  datatype RenameAnswer = Done | FailedBefore | FailedAfter

  /** The server's behaviour during one deployment. */
  datatype Script = Script(
    first: ReadAnswer,
    attempts: seq<Attempt>,
    lists: bool,
    park: RenameAnswer,
    swap: RenameAnswer,
    last: ReadAnswer)

  /** Every directory the operations pass through, in order, and whether the call returned normally. */
  datatype Run = Run(trace: seq<Directory>, ok: bool)

  // ----------------------------------------------------------------- server

  /** What the caller sees of a retrieval; a missing file is a permanent error. */
  function Read(dir: Directory, name: Name, answer: ReadAnswer): Reading {
    if answer.Dropped? then Lost
    else if answer.Refused? || name !in dir then Denied
    else if answer.Sent? then Content(answer.bytes)
    else Content(dir[name])
  }

  function Stored(dir: Directory, name: Name, residue: Residue): Directory {
    match residue
    case Untouched => dir
    case Gone => dir - {name}
    case Holds(bytes) => dir[name := bytes]
  }

  function Moved(dir: Directory, from: Name, to: Name): Directory
    requires from in dir
  {
    (dir - {from})[to := dir[from]]
  }

  function Renamed(dir: Directory, from: Name, to: Name, answer: RenameAnswer): (Directory, bool) {
    if from !in dir || answer.FailedBefore? then (dir, false)
    else (Moved(dir, from, to), answer.Done?)
  }

  // ------------------------------------------------------------ parked names

  function Stem(digest: Digest, bytes: Bytes): Name {
    var d := digest(bytes);
    PARKED + if |d| > 12 then d[..12] else d
  }

  /** The names tried in turn: the stem, then the stem with -2, -3, ... */
  function Numbered(stem: Name, k: nat): Name {
    if k <= 1 then stem else stem + "-" + Decimal.Print(k)
  }

  lemma NumberedInjective(stem: Name, j: nat, k: nat)
    requires 1 <= j < k
    ensures Numbered(stem, j) != Numbered(stem, k)
  {
    var b := Numbered(stem, k);
    assert b[|stem| + 1..] == Decimal.Print(k);
    if j > 1 && Numbered(stem, j) == b {
      assert Numbered(stem, j)[|stem| + 1..] == Decimal.Print(j);
      Decimal.PrintInjective(j, k);
    }
  }

  function Tried(stem: Name, n: nat): set<Name> {
    set k: nat | 1 <= k < n :: Numbered(stem, k)
  }

  lemma NotTried(stem: Name, n: nat)
    requires 1 <= n
    ensures Numbered(stem, n) !in Tried(stem, n)
  {
    forall k: nat | 1 <= k < n
      ensures Numbered(stem, k) != Numbered(stem, n)
    {
      NumberedInjective(stem, k, n);
    }
  }

  lemma TriedGrows(stem: Name, n: nat)
    requires 1 <= n
    ensures Tried(stem, n + 1) == Tried(stem, n) + {Numbered(stem, n)}
  {
  }

  lemma FewerLeft(names: set<Name>, tried: set<Name>, name: Name)
    requires name in names && name !in tried
    ensures |names - (tried + {name})| < |names - tried|
  {
    assert names - (tried + {name}) == (names - tried) - {name};
  }

  /** Each name found taken is a new one, so the untried names run out. */
  lemma TriedShrinks(stem: Name, names: set<Name>, n: nat)
    requires 1 <= n && Numbered(stem, n) in names
    ensures |names - Tried(stem, n + 1)| < |names - Tried(stem, n)|
  {
    NotTried(stem, n);
    TriedGrows(stem, n);
    FewerLeft(names, Tried(stem, n), Numbered(stem, n));
  }

  /** The first numbered name not taken. */
  function FreeFrom(stem: Name, names: set<Name>, n: nat): (r: nat)
    requires 1 <= n
    ensures n <= r && Numbered(stem, r) !in names
    ensures forall k | n <= k < r :: Numbered(stem, k) in names
    decreases |names - Tried(stem, n)|
  {
    if Numbered(stem, n) !in names then n
    else
      TriedShrinks(stem, names, n);
      FreeFrom(stem, names, n + 1)
  }

  function ParkedName(stem: Name, names: set<Name>): (r: Name)
    ensures r !in names
  {
    Numbered(stem, FreeFrom(stem, names, 1))
  }

  // ------------------------------------------------------------------ deploy

  function Last(dir: Directory, trace: seq<Directory>): Directory {
    if trace == [] then dir else trace[|trace| - 1]
  }

  /** A readback that proves the upload: it completes and its digest is the candidate's. */
  predicate Verified(digest: Digest, r: Reading, data: Bytes) {
    r.Content? && digest(r.bytes) == digest(data)
  }

  function Uploading(digest: Digest, dir: Directory, name: Name, data: Bytes, attempts: seq<Attempt>): Run
    decreases |attempts|
  {
    if attempts == [] then Run([], false)
    else
      var a := attempts[0];
      var after := Stored(dir, name, a.residue);
      if a.reported && Verified(digest, Read(after, name, a.read), data) then Run([after], true)
      else if |attempts| == 1 || !a.reconnects then Run([after], false)
      else
        var rest := Uploading(digest, after, name, data, attempts[1..]);
        Run([after] + rest.trace, rest.ok)
  }

  /** From the verified upload in `dir` to the payload in place. */
  function Swapping(digest: Digest, dir: Directory, data: Bytes, swap: RenameAnswer, last: ReadAnswer): Run {
    var (after, ok) := Renamed(dir, UPLOAD, PAYLOAD, swap);
    Run([after], ok && Verified(digest, Read(after, PAYLOAD, last), data))
  }

  function Deploying(digest: Digest, dir: Directory, data: Bytes, s: Script): Run {
    var current := Read(dir, PAYLOAD, s.first);
    if current.Lost? then Run([], false)
    else
      var up := Uploading(digest, dir, UPLOAD, data, s.attempts);
      var uploaded := Last(dir, up.trace);
      if !up.ok then up
      else if current.Denied? || current.bytes == [] then
        var end := Swapping(digest, uploaded, data, s.swap, s.last);
        Run(up.trace + end.trace, end.ok)
      else if !s.lists then Run(up.trace, false)
      else
        var (parked, moved) := Renamed(uploaded, PAYLOAD, ParkedName(Stem(digest, current.bytes), uploaded.Keys), s.park);
        if !moved then Run(up.trace + [parked], false)
        else
          var end := Swapping(digest, parked, data, s.swap, s.last);
          Run(up.trace + [parked] + end.trace, end.ok)
  }

  // ---------------------------------------------------------------- theorems

  ghost predicate SameExcept(a: Directory, b: Directory, names: set<Name>) {
    forall name | name !in names :: (name in a <==> name in b) && (name in a ==> a[name] == b[name])
  }

  /** What the deployment takes the outgoing payload to be: what it read, or nothing if refused. */
  function Current(dir: Directory, first: ReadAnswer): Bytes {
    var r := Read(dir, PAYLOAD, first);
    if r.Content? then r.bytes else []
  }

  /** The name the outgoing payload would be parked under, having been read as `bytes`. */
  function ParkedAs(digest: Digest, dir: Directory, bytes: Bytes): (r: Name)
    ensures r !in dir
  {
    ParkedName(Stem(digest, bytes), dir.Keys)
  }

  /** The outgoing payload of `dir` is still there in `d`. */
  ghost predicate Survives(digest: Digest, dir: Directory, bytes: Bytes, d: Directory)
    requires PAYLOAD in dir
  {
    || (PAYLOAD in d && d[PAYLOAD] == dir[PAYLOAD])
    || (ParkedAs(digest, dir, bytes) in d && d[ParkedAs(digest, dir, bytes)] == dir[PAYLOAD])
  }

  lemma NumberedApart(digest: Digest, bytes: Bytes, k: nat)
    ensures Numbered(Stem(digest, bytes), k) != PAYLOAD && Numbered(Stem(digest, bytes), k) != UPLOAD
  {
    var name := Numbered(Stem(digest, bytes), k);
    assert name[..|PARKED|] == PARKED;
    assert PARKED[12] == 'p' && UPLOAD[12] == 'g';
    assert name[12] == name[..|PARKED|][12];
  }

  /** The temporary upload does not influence the choice of parked name. */
  lemma SameParkedName(digest: Digest, bytes: Bytes, a: set<Name>, b: set<Name>)
    requires a - {UPLOAD} == b - {UPLOAD}
    ensures ParkedName(Stem(digest, bytes), a) == ParkedName(Stem(digest, bytes), b)
  {
    var stem := Stem(digest, bytes);
    var i, j := FreeFrom(stem, a, 1), FreeFrom(stem, b, 1);
    NumberedApart(digest, bytes, i);
    NumberedApart(digest, bytes, j);
    forall k | k == i || k == j
      ensures Numbered(stem, k) in a <==> Numbered(stem, k) in b
    {
      assert Numbered(stem, k) in a - {UPLOAD} <==> Numbered(stem, k) in b - {UPLOAD};
    }
  }

  /** Every readback of the attempts that completes returns the file. */
  predicate HonestUpload(attempts: seq<Attempt>) {
    forall k | 0 <= k < |attempts| :: !attempts[k].read.Sent?
  }

  /**
   However the attempts go, only the temporary name changes; success means an upload under it,
   and one with the candidate's digest if the readbacks return the file.
   */
  lemma {:induction false} UploadKeeps(digest: Digest, dir: Directory, name: Name, data: Bytes, attempts: seq<Attempt>)
    ensures var up := Uploading(digest, dir, name, data, attempts);
            && (forall k | 0 <= k < |up.trace| :: SameExcept(dir, up.trace[k], {name}))
            && SameExcept(dir, Last(dir, up.trace), {name}) && |up.trace| <= |attempts|
            && (up.ok ==> name in Last(dir, up.trace))
            && (up.ok && HonestUpload(attempts) ==> digest(Last(dir, up.trace)[name]) == digest(data))
    decreases |attempts|
  {
    if attempts != [] {
      UploadKeeps(digest, Stored(dir, name, attempts[0].residue), name, data, attempts[1..]);
    }
  }

  lemma ParkKeeps(digest: Digest, dir: Directory, bytes: Bytes, uploaded: Directory, answer: RenameAnswer)
    requires PAYLOAD in dir && SameExcept(dir, uploaded, {UPLOAD})
    ensures ParkedName(Stem(digest, bytes), uploaded.Keys) == ParkedAs(digest, dir, bytes)
    ensures var (d, ok) := Renamed(uploaded, PAYLOAD, ParkedAs(digest, dir, bytes), answer);
            && Survives(digest, dir, bytes, d) && SameExcept(dir, d, {PAYLOAD, UPLOAD, ParkedAs(digest, dir, bytes)})
            && (ok ==> ParkedAs(digest, dir, bytes) in d && d[ParkedAs(digest, dir, bytes)] == dir[PAYLOAD])
            && (UPLOAD in uploaded ==> UPLOAD in d && d[UPLOAD] == uploaded[UPLOAD])
  {
    assert dir.Keys - {UPLOAD} == uploaded.Keys - {UPLOAD};
    SameParkedName(digest, bytes, dir.Keys, uploaded.Keys);
    NumberedApart(digest, bytes, FreeFrom(Stem(digest, bytes), dir.Keys, 1));
    assert PAYLOAD != UPLOAD;
  }

  lemma SwapMoves(digest: Digest, dir: Directory, data: Bytes, swap: RenameAnswer, last: ReadAnswer)
    requires UPLOAD in dir
    ensures var end := Swapping(digest, dir, data, swap, last);
            && |end.trace| == 1 && SameExcept(dir, end.trace[0], {PAYLOAD, UPLOAD})
            && (end.ok ==> PAYLOAD in end.trace[0] && end.trace[0][PAYLOAD] == dir[UPLOAD] && UPLOAD !in end.trace[0])
            && (end.ok && !last.Sent? ==> digest(end.trace[0][PAYLOAD]) == digest(data))
  {
    assert PAYLOAD != UPLOAD;
  }

  /** Every pre-existing file but the payload and the temporary keeps its bytes at every step. */
  lemma NothingElseTouched(digest: Digest, dir: Directory, data: Bytes, s: Script, k: nat, name: Name)
    requires k < |Deploying(digest, dir, data, s).trace| && name in dir && name != PAYLOAD && name != UPLOAD
    ensures name in Deploying(digest, dir, data, s).trace[k] && Deploying(digest, dir, data, s).trace[k][name] == dir[name]
  {
    UploadKeeps(digest, dir, UPLOAD, data, s.attempts);
    var up := Uploading(digest, dir, UPLOAD, data, s.attempts);
    var uploaded, bytes := Last(dir, up.trace), Current(dir, s.first);
    if up.ok {
      SwapMoves(digest, uploaded, data, s.swap, s.last);
      if PAYLOAD in dir {
        ParkKeeps(digest, dir, bytes, uploaded, s.park);
        SwapMoves(digest, Renamed(uploaded, PAYLOAD, ParkedAs(digest, dir, bytes), s.park).0, data, s.swap, s.last);
      }
    }
  }

  /** The first read breaks off, or brings something: the answers after which the payload is not overwritten. */
  predicate Protects(dir: Directory, first: ReadAnswer) {
    Read(dir, PAYLOAD, first).Lost? || Current(dir, first) != []
  }

  /** A payload read as anything but nothing survives every step, whatever fails and whatever the reads return. */
  lemma OutgoingSurvives(digest: Digest, dir: Directory, data: Bytes, s: Script, k: nat)
    requires PAYLOAD in dir && Protects(dir, s.first)
    requires k < |Deploying(digest, dir, data, s).trace|
    ensures Survives(digest, dir, Current(dir, s.first), Deploying(digest, dir, data, s).trace[k])
  {
    UploadKeeps(digest, dir, UPLOAD, data, s.attempts);
    var up := Uploading(digest, dir, UPLOAD, data, s.attempts);
    var uploaded, bytes := Last(dir, up.trace), Current(dir, s.first);
    ParkKeeps(digest, dir, bytes, uploaded, s.park);
    var (parked, moved) := Renamed(uploaded, PAYLOAD, ParkedAs(digest, dir, bytes), s.park);
    NumberedApart(digest, bytes, FreeFrom(Stem(digest, bytes), dir.Keys, 1));
    if up.ok {
      SwapMoves(digest, parked, data, s.swap, s.last);
    }
  }

  /**
   A deployment that returns has the upload in place, no temporary, every other file as before,
   and the outgoing payload parked if something of it was read. If the final read, or the
   readbacks, return the file, the upload is the candidate up to a digest collision.
   */
  lemma SuccessDeploys(digest: Digest, dir: Directory, data: Bytes, s: Script)
    requires Deploying(digest, dir, data, s).ok
    ensures var end, bytes := Last(dir, Deploying(digest, dir, data, s).trace), Current(dir, s.first);
            && PAYLOAD in end && UPLOAD !in end
            && (!s.last.Sent? || HonestUpload(s.attempts) ==>
                  && digest(end[PAYLOAD]) == digest(data)
                  && ((forall x | digest(x) == digest(data) :: x == data) ==> end[PAYLOAD] == data))
            && (if bytes != [] then
                  && PAYLOAD in dir && ParkedAs(digest, dir, bytes) in end && end[ParkedAs(digest, dir, bytes)] == dir[PAYLOAD]
                  && SameExcept(dir, end, {PAYLOAD, UPLOAD, ParkedAs(digest, dir, bytes)})
                else SameExcept(dir, end, {PAYLOAD, UPLOAD}))
  {
    UploadKeeps(digest, dir, UPLOAD, data, s.attempts);
    var uploaded, bytes := Last(dir, Uploading(digest, dir, UPLOAD, data, s.attempts).trace), Current(dir, s.first);
    if bytes != [] {
      ParkKeeps(digest, dir, bytes, uploaded, s.park);
      NumberedApart(digest, bytes, FreeFrom(Stem(digest, bytes), dir.Keys, 1));
      SwapMoves(digest, Renamed(uploaded, PAYLOAD, ParkedAs(digest, dir, bytes), s.park).0, data, s.swap, s.last);
    } else {
      SwapMoves(digest, uploaded, data, s.swap, s.last);
    }
  }

  // ------------------------------------------------------------ it deploys

  function FileAt(dir: Directory, name: Name): Option<Bytes> {
    if name in dir then Some(dir[name]) else None
  }

  /** What the first `n` transfers leave under a name that held `before`. */
  function Uploaded(before: Option<Bytes>, attempts: seq<Attempt>, n: nat): Option<Bytes>
    requires n <= |attempts|
  {
    if n == 0 then before
    else match attempts[n - 1].residue
      case Untouched => Uploaded(before, attempts, n - 1)
      case Gone => None
      case Holds(bytes) => Some(bytes)
  }

  /** A completed read of a file that is there, bringing the candidate's digest. */
  predicate Brings(digest: Digest, file: Option<Bytes>, answer: ReadAnswer, data: Bytes) {
    && file.Some?
    && ((answer.Whole? && digest(file.value) == digest(data)) || (answer.Sent? && digest(answer.bytes) == digest(data)))
  }

  /** Attempt `k` reports success and its readback brings the candidate's digest. */
  predicate Good(digest: Digest, before: Option<Bytes>, data: Bytes, attempts: seq<Attempt>, k: nat)
    requires k < |attempts|
  {
    attempts[k].reported && Brings(digest, Uploaded(before, attempts, k + 1), attempts[k].read, data)
  }

  /** Attempt `k` is the first good one, and every one before it reconnects. */
  predicate GoodAt(digest: Digest, before: Option<Bytes>, data: Bytes, attempts: seq<Attempt>, k: nat) {
    && k < |attempts| && Good(digest, before, data, attempts, k)
    && forall j | 0 <= j < k :: !Good(digest, before, data, attempts, j) && attempts[j].reconnects
  }

  lemma {:induction false} UploadedTail(before: Option<Bytes>, attempts: seq<Attempt>, n: nat)
    requires 0 < n <= |attempts|
    ensures Uploaded(before, attempts, n) == Uploaded(Uploaded(before, attempts, 1), attempts[1..], n - 1)
  {
    if n > 1 {
      UploadedTail(before, attempts, n - 1);
      assert attempts[1..][n - 2] == attempts[n - 1];
    }
  }

  lemma GoodTail(digest: Digest, before: Option<Bytes>, data: Bytes, attempts: seq<Attempt>, k: nat)
    requires 0 < k < |attempts|
    ensures Good(digest, before, data, attempts, k) <==> Good(digest, Uploaded(before, attempts, 1), data, attempts[1..], k - 1)
  {
    UploadedTail(before, attempts, k + 1);
  }

  lemma GoodAtTail(digest: Digest, before: Option<Bytes>, data: Bytes, attempts: seq<Attempt>, k: nat)
    requires attempts != [] && !Good(digest, before, data, attempts, 0) && attempts[0].reconnects
    ensures GoodAt(digest, before, data, attempts, k + 1) <==> GoodAt(digest, Uploaded(before, attempts, 1), data, attempts[1..], k)
  {
    var rest, first := attempts[1..], Uploaded(before, attempts, 1);
    forall j: nat | j < |rest|
      ensures Good(digest, before, data, attempts, j + 1) <==> Good(digest, first, data, rest, j)
      ensures rest[j] == attempts[j + 1]
    {
      GoodTail(digest, before, data, attempts, j + 1);
    }
    if GoodAt(digest, before, data, attempts, k + 1) {
      forall j | 0 <= j < k
        ensures !Good(digest, first, data, rest, j) && rest[j].reconnects
      {
        assert !Good(digest, before, data, attempts, j + 1);
      }
    }
    if GoodAt(digest, first, data, rest, k) {
      forall j | 0 < j < k + 1
        ensures !Good(digest, before, data, attempts, j) && attempts[j].reconnects
      {
        assert !Good(digest, first, data, rest, j - 1) && rest[j - 1] == attempts[j];
      }
    }
  }

  lemma GoodFirst(digest: Digest, dir: Directory, name: Name, data: Bytes, attempts: seq<Attempt>)
    requires attempts != []
    ensures var after := Stored(dir, name, attempts[0].residue);
            && FileAt(after, name) == Uploaded(FileAt(dir, name), attempts, 1)
            && (Good(digest, FileAt(dir, name), data, attempts, 0) <==>
                attempts[0].reported && Verified(digest, Read(after, name, attempts[0].read), data))
  {
  }

  /** A good attempt after attempts that reconnect makes the upload succeed, and what it left is there. */
  lemma {:induction false} UploadSucceeds(digest: Digest, dir: Directory, name: Name, data: Bytes, attempts: seq<Attempt>, k: nat)
    requires GoodAt(digest, FileAt(dir, name), data, attempts, k)
    ensures Uploading(digest, dir, name, data, attempts).ok
    ensures FileAt(Last(dir, Uploading(digest, dir, name, data, attempts).trace), name) == Uploaded(FileAt(dir, name), attempts, k + 1)
    decreases k
  {
    GoodFirst(digest, dir, name, data, attempts);
    if k > 0 {
      var after := Stored(dir, name, attempts[0].residue);
      assert !Good(digest, FileAt(dir, name), data, attempts, 0);
      GoodAtTail(digest, FileAt(dir, name), data, attempts, k - 1);
      UploadSucceeds(digest, after, name, data, attempts[1..], k - 1);
      UploadedTail(FileAt(dir, name), attempts, k + 1);
    }
  }

  /** An upload that succeeds had such an attempt. */
  lemma {:induction false} UploadHadGood(digest: Digest, dir: Directory, name: Name, data: Bytes, attempts: seq<Attempt>) returns (k: nat)
    requires Uploading(digest, dir, name, data, attempts).ok
    ensures GoodAt(digest, FileAt(dir, name), data, attempts, k)
    decreases |attempts|
  {
    GoodFirst(digest, dir, name, data, attempts);
    if Good(digest, FileAt(dir, name), data, attempts, 0) {
      k := 0;
    } else {
      var after := Stored(dir, name, attempts[0].residue);
      k := UploadHadGood(digest, after, name, data, attempts[1..]);
      GoodAtTail(digest, FileAt(dir, name), data, attempts, k);
      k := k + 1;
    }
  }

  /** What the rest of the script must do once attempt `k` has put `upload` there. */
  predicate Completes(digest: Digest, dir: Directory, data: Bytes, s: Script, upload: Option<Bytes>) {
    && (Current(dir, s.first) != [] ==> s.lists && s.park.Done?)
    && s.swap.Done? && Brings(digest, upload, s.last, data)
  }

  /**
   A deployment returns exactly when the first read does not break off, some attempt is good
   after attempts that reconnect, the listing and the park rename work if a payload was read,
   the second rename works, and the last read brings the candidate's digest.
   */
  lemma DeploysExactly(digest: Digest, dir: Directory, data: Bytes, s: Script)
    ensures Deploying(digest, dir, data, s).ok <==>
            && !s.first.Dropped?
            && exists k: nat :: GoodAt(digest, FileAt(dir, UPLOAD), data, s.attempts, k)
                           && Completes(digest, dir, data, s, Uploaded(FileAt(dir, UPLOAD), s.attempts, k + 1))
  {
    if Uploading(digest, dir, UPLOAD, data, s.attempts).ok {
      var k := UploadHadGood(digest, dir, UPLOAD, data, s.attempts);
      UploadSucceeds(digest, dir, UPLOAD, data, s.attempts, k);
      DeployCompletes(digest, dir, data, s, k);
    }
    forall k: nat | GoodAt(digest, FileAt(dir, UPLOAD), data, s.attempts, k)
      ensures Completes(digest, dir, data, s, Uploaded(FileAt(dir, UPLOAD), s.attempts, k + 1)) && !s.first.Dropped? ==>
                Deploying(digest, dir, data, s).ok
    {
      DeployCompletes(digest, dir, data, s, k);
    }
  }

  lemma DeployCompletes(digest: Digest, dir: Directory, data: Bytes, s: Script, k: nat)
    requires GoodAt(digest, FileAt(dir, UPLOAD), data, s.attempts, k)
    ensures Deploying(digest, dir, data, s).ok <==>
            !s.first.Dropped? && Completes(digest, dir, data, s, Uploaded(FileAt(dir, UPLOAD), s.attempts, k + 1))
  {
    UploadSucceeds(digest, dir, UPLOAD, data, s.attempts, k);
    UploadKeeps(digest, dir, UPLOAD, data, s.attempts);
    var uploaded, bytes := Last(dir, Uploading(digest, dir, UPLOAD, data, s.attempts).trace), Current(dir, s.first);
    SwapBrings(digest, uploaded, data, s.swap, s.last);
    if bytes != [] {
      ParkKeeps(digest, dir, bytes, uploaded, s.park);
      SwapBrings(digest, Renamed(uploaded, PAYLOAD, ParkedAs(digest, dir, bytes), s.park).0, data, s.swap, s.last);
    }
  }

  lemma SwapBrings(digest: Digest, dir: Directory, data: Bytes, swap: RenameAnswer, last: ReadAnswer)
    requires UPLOAD in dir
    ensures Swapping(digest, dir, data, swap, last).ok <==> swap.Done? && Brings(digest, FileAt(dir, UPLOAD), last, data)
  {
    assert PAYLOAD != UPLOAD;
  }

  /**
   On a server where everything goes through, whatever was there: the call returns, the payload
   is the candidate, the old one is parked if it held anything, and the rest is as it was.
   */
  lemma SmoothDeployment(digest: Digest, dir: Directory, data: Bytes, s: Script)
    requires s.first == Whole || s.first == Refused
    requires |s.attempts| == ATTEMPTS && s.attempts[0] == Attempt(true, Holds(data), Whole, s.attempts[0].reconnects)
    requires s.lists && s.park.Done? && s.swap.Done? && s.last == Whole
    ensures var run, was := Deploying(digest, dir, data, s), Current(dir, s.first);
            run.ok && Last(dir, run.trace) ==
              if was == [] then (dir - {UPLOAD})[PAYLOAD := data]
              else (dir - {UPLOAD})[PAYLOAD := data][ParkedAs(digest, dir, was) := was]
  {
    var before, run, was := FileAt(dir, UPLOAD), Deploying(digest, dir, data, s), Current(dir, s.first);
    assert Uploaded(before, s.attempts, 1) == Some(data);
    assert GoodAt(digest, before, data, s.attempts, 0);
    UploadSucceeds(digest, dir, UPLOAD, data, s.attempts, 0);
    DeployCompletes(digest, dir, data, s, 0);
    SuccessDeploys(digest, dir, data, s);
    EndHolds(digest, dir, data, s);
    NumberedApart(digest, was, FreeFrom(Stem(digest, was), dir.Keys, 1));
  }

  /** What a deployment that returns put in place is what its upload left. */
  lemma EndHolds(digest: Digest, dir: Directory, data: Bytes, s: Script)
    requires Deploying(digest, dir, data, s).ok
    ensures FileAt(Last(dir, Deploying(digest, dir, data, s).trace), PAYLOAD) ==
            FileAt(Last(dir, Uploading(digest, dir, UPLOAD, data, s.attempts).trace), UPLOAD)
  {
    UploadKeeps(digest, dir, UPLOAD, data, s.attempts);
    var uploaded, bytes := Last(dir, Uploading(digest, dir, UPLOAD, data, s.attempts).trace), Current(dir, s.first);
    SwapMoves(digest, uploaded, data, s.swap, s.last);
    if bytes != [] {
      ParkKeeps(digest, dir, bytes, uploaded, s.park);
      SwapMoves(digest, Renamed(uploaded, PAYLOAD, ParkedAs(digest, dir, bytes), s.park).0, data, s.swap, s.last);
    }
  }

  /** The parked name: the digest's first twelve characters behind a fixed stem, numbered from 2 past names already taken. */
  lemma ParkedNameIs(digest: Digest, dir: Directory, bytes: Bytes)
    requires |digest(bytes)| >= 12
    ensures var stem, name := "payload.bin.prev-" + digest(bytes)[..12], ParkedAs(digest, dir, bytes);
            && (stem !in dir ==> name == stem)
            && (stem in dir ==> exists n: nat :: n >= 2 && name == stem + "-" + Decimal.Print(n)
                                  && forall m: nat | 2 <= m < n :: stem + "-" + Decimal.Print(m) in dir)
  {
    var stem := Stem(digest, bytes);
    var n := FreeFrom(stem, dir.Keys, 1);
    assert |digest(bytes)| == 12 ==> digest(bytes)[..12] == digest(bytes);
    assert stem == "payload.bin.prev-" + digest(bytes)[..12];
    assert Numbered(stem, 1) == stem;
    if stem !in dir {
      assert Numbered(stem, 1) !in dir.Keys && n == 1;
    } else {
      assert n >= 2 && ParkedAs(digest, dir, bytes) == stem + "-" + Decimal.Print(n);
      forall m: nat | 2 <= m < n
        ensures stem + "-" + Decimal.Print(m) in dir
      {
        assert Numbered(stem, m) in dir.Keys;
      }
    }
  }

  // -------------------------------------------------- the unread first read

  ghost predicate SurvivesRun(digest: Digest, dir: Directory, data: Bytes, s: Script)
    requires PAYLOAD in dir
  {
    var trace := Deploying(digest, dir, data, s).trace;
    forall k | 0 <= k < |trace| :: Survives(digest, dir, Current(dir, s.first), trace[k])
  }

  /** After the first read everything goes through, uploading `x`, whose readback is `read`. */
  function Overwriting(first: ReadAnswer, x: Bytes, read: ReadAnswer): Script {
    var a := Attempt(true, Holds(x), read, true);
    Script(first, [a, a, a], true, Done, Done, Whole)
  }

  lemma OverwritingLoses(digest: Digest, dir: Directory, data: Bytes, first: ReadAnswer, x: Bytes, read: ReadAnswer)
    requires PAYLOAD in dir && !Protects(dir, first) && x != dir[PAYLOAD]
    requires (read == Whole && digest(x) == digest(data)) || read == Sent(data)
    ensures !SurvivesRun(digest, dir, data, Overwriting(first, x, read))
  {
    var s := Overwriting(first, x, read);
    var uploaded := dir[UPLOAD := x];
    assert Stored(dir, UPLOAD, Holds(x)) == uploaded;
    assert Uploading(digest, dir, UPLOAD, data, s.attempts) == Run([uploaded], true);
    NumberedApart(digest, [], FreeFrom(Stem(digest, []), dir.Keys, 1));
    assert PAYLOAD != UPLOAD;
    var trace := Deploying(digest, dir, data, s).trace;
    assert trace == [uploaded, Moved(uploaded, UPLOAD, PAYLOAD)];
    assert !Survives(digest, dir, [], trace[1]);
  }

  lemma ProtectedSurvives(digest: Digest, dir: Directory, data: Bytes, s: Script)
    requires PAYLOAD in dir && Protects(dir, s.first)
    ensures SurvivesRun(digest, dir, data, s)
  {
    forall k | 0 <= k < |Deploying(digest, dir, data, s).trace|
      ensures Survives(digest, dir, Current(dir, s.first), Deploying(digest, dir, data, s).trace[k])
    {
      OutgoingSurvives(digest, dir, data, s, k);
    }
  }

  /**
   The outgoing payload survives every behaviour of the server after its answer to the first
   read exactly when that read breaks off or brings at least a byte.
   */
  lemma SurvivesExactly(digest: Digest, dir: Directory, data: Bytes, first: ReadAnswer)
    requires PAYLOAD in dir
    ensures (forall s: Script | s.first == first && |s.attempts| == ATTEMPTS :: SurvivesRun(digest, dir, data, s))
       <==> Protects(dir, first)
  {
    if Protects(dir, first) {
      forall s: Script | s.first == first && |s.attempts| == ATTEMPTS
        ensures SurvivesRun(digest, dir, data, s)
      {
        ProtectedSurvives(digest, dir, data, s);
      }
    } else {
      var x := dir[PAYLOAD] + [0];
      OverwritingLoses(digest, dir, data, first, x, Sent(data));
      assert Overwriting(first, x, Sent(data)).first == first;
    }
  }

  /** Every read after the first that completes returns the file. */
  predicate Honest(s: Script) {
    HonestUpload(s.attempts) && !s.last.Sent?
  }

  /**
   Of a server whose later reads return the file: the payload survives exactly when the first
   read protects it, or the upload cannot differ from it.
   */
  lemma SurvivesHonestExactly(digest: Digest, dir: Directory, data: Bytes, first: ReadAnswer)
    requires PAYLOAD in dir
    ensures (forall s: Script | s.first == first && |s.attempts| == ATTEMPTS && Honest(s) :: SurvivesRun(digest, dir, data, s))
       <==> (Protects(dir, first) || forall x | digest(x) == digest(data) :: x == dir[PAYLOAD])
  {
    if !Protects(dir, first) {
      if x :| digest(x) == digest(data) && x != dir[PAYLOAD] {
        OverwritingLoses(digest, dir, data, first, x, Whole);
        assert Overwriting(first, x, Whole).first == first && Honest(Overwriting(first, x, Whole));
      }
    }
    forall s: Script | s.first == first && Honest(s) && (Protects(dir, first) || forall x | digest(x) == digest(data) :: x == dir[PAYLOAD])
      ensures SurvivesRun(digest, dir, data, s)
    {
      if Protects(dir, first) {
        ProtectedSurvives(digest, dir, data, s);
      } else {
        SameBytesSurvive(digest, dir, data, s);
      }
    }
  }

  lemma SameBytesSurvive(digest: Digest, dir: Directory, data: Bytes, s: Script)
    requires PAYLOAD in dir && !Protects(dir, s.first) && Honest(s) && forall x | digest(x) == digest(data) :: x == dir[PAYLOAD]
    ensures SurvivesRun(digest, dir, data, s)
  {
    UploadKeeps(digest, dir, UPLOAD, data, s.attempts);
    var up := Uploading(digest, dir, UPLOAD, data, s.attempts);
    var uploaded := Last(dir, up.trace);
    assert PAYLOAD != UPLOAD;
    if up.ok {
      var (after, _) := Renamed(uploaded, UPLOAD, PAYLOAD, s.swap);
      assert PAYLOAD in after && after[PAYLOAD] == dir[PAYLOAD];
    }
  }

  /** A one-byte payload whose read is refused, or completes empty, is gone after a deployment that reports success. */
  lemma UnreadPayloadLost(digest: Digest, first: ReadAnswer)
    requires first == Refused || first == Sent([])
    ensures var run := Deploying(digest, map[PAYLOAD := [1]], [2], Overwriting(first, [2], Whole));
            run.ok && Last(map[], run.trace) == map[PAYLOAD := [2]]
  {
    var dir: Directory := map[PAYLOAD := [1]];
    var uploaded := dir[UPLOAD := [2]];
    assert PAYLOAD != UPLOAD;
    assert Uploading(digest, dir, UPLOAD, [2], Overwriting(first, [2], Whole).attempts) == Run([uploaded], true);
    assert Moved(uploaded, UPLOAD, PAYLOAD) == map[PAYLOAD := [2]];
  }

  // ------------------------------------------------------------ the session

  lemma LastAppend(dir: Directory, trace: seq<Directory>, d: Directory)
    ensures Last(dir, trace + [d]) == d
  {
  }

  /** What remains of a run after the directories `since`. */
  ghost predicate Continues(whole: Run, since: seq<Directory>, rest: Run) {
    whole.trace == since + rest.trace && whole.ok == rest.ok
  }

  /** An upload in progress: its arguments, the state it began in and the run it will make. */
  datatype Putting = Putting(digest: Digest, name: Name, data: Bytes, dir: Directory, base: seq<Directory>, up: Run)

  /** One attempt's share in what remains of an upload. */
  lemma UploadingUnfolds(digest: Digest, dir: Directory, name: Name, data: Bytes, attempts: seq<Attempt>, whole: Run, since: seq<Directory>)
    requires attempts != [] && Continues(whole, since, Uploading(digest, dir, name, data, attempts))
    ensures var a := attempts[0];
            var after := Stored(dir, name, a.residue);
            var ok := a.reported && Verified(digest, Read(after, name, a.read), data);
            if ok || |attempts| == 1 || !a.reconnects then whole == Run(since + [after], ok)
            else Continues(whole, since + [after], Uploading(digest, after, name, data, attempts[1..]))
  {
    var after := Stored(dir, name, attempts[0].residue);
    var rest := Uploading(digest, after, name, data, attempts[1..]);
    assert since + ([after] + rest.trace) == since + [after] + rest.trace;
  }

  /** The device's directory as the session changes it; `trace` records every directory after a change. */
  class Remote {
    var files: Directory
    ghost var trace: seq<Directory>

    constructor (files: Directory)
      ensures this.files == files && trace == []
    {
      this.files := files;
      trace := [];
    }

    method Store(name: Name, residue: Residue)
      modifies this
      ensures files == Stored(old(files), name, residue) && trace == old(trace) + [files]
    {
      match residue {
        case Untouched =>
        case Gone => files := files - {name};
        case Holds(bytes) => files := files[name := bytes];
      }
      trace := trace + [files];
    }

    /** `ftp_read`. */
    method Retrieve(name: Name, answer: ReadAnswer) returns (r: Reading)
      ensures r == Read(files, name, answer)
    {
      if answer.Dropped? { return Lost; }
      if answer.Refused? || name !in files { return Denied; }
      r := Content(if answer.Sent? then answer.bytes else files[name]);
    }

    method Rename(from: Name, to: Name, answer: RenameAnswer) returns (ok: bool)
      modifies this
      ensures (files, ok) == Renamed(old(files), from, to, answer) && trace == old(trace) + [files]
    {
      ok := false;
      if from in files && !answer.FailedBefore? {
        var bytes := files[from];
        files := files - {from};
        files := files[to := bytes];
        ok := answer.Done?;
      }
      trace := trace + [files];
    }

    /** One attempt: the transfer and its readback. */
    method TryPut(digest: Digest, name: Name, data: Bytes, a: Attempt) returns (ok: bool)
      modifies this
      ensures files == Stored(old(files), name, a.residue) && trace == old(trace) + [files]
      ensures ok == (a.reported && Verified(digest, Read(files, name, a.read), data))
    {
      Store(name, a.residue);
      if !a.reported {
        return false;
      }
      var back := Retrieve(name, a.read);
      ok := Verified(digest, back, data);
    }

    /** Where the retry loop stands: the directories passed, and what is left of the upload. */
    ghost predicate PutTo(p: Putting, rest: seq<Attempt>, since: seq<Directory>, ok: bool, failed: bool)
      reads this
    {
      && files == Last(p.dir, since) && trace == p.base + since
      && if ok || failed then p.up == Run(since, ok)
         else Continues(p.up, since, Uploading(p.digest, files, p.name, p.data, rest))
    }

    /** `ftp_put_verified`: upload, read back, and retry the whole transfer after reconnecting. */
    method PutVerified(digest: Digest, name: Name, data: Bytes, attempts: seq<Attempt>) returns (ok: bool)
      modifies this
      ensures var up := Uploading(digest, old(files), name, data, attempts);
              ok == up.ok && trace == old(trace) + up.trace && files == Last(old(files), up.trace)
    {
      var next, failed := 0, false;
      ok := false;
      ghost var p := Putting(digest, name, data, files, trace, Uploading(digest, files, name, data, attempts));
      ghost var since := [];
      assert attempts[0..] == attempts && trace + since == trace && since + p.up.trace == p.up.trace;
      while next < |attempts| && !ok && !failed
        invariant 0 <= next <= |attempts| && PutTo(p, attempts[next..], since, ok, failed)
        decreases |attempts| - next
      {
        assert attempts[next..][1..] == attempts[next + 1..];
        ok, failed, since := PutNext(digest, name, data, attempts[next..], p, since);
        next := next + 1;
      }
    }

    /** One turn of the retry loop, with `rest` attempts to go. */
    method PutNext(digest: Digest, name: Name, data: Bytes, rest: seq<Attempt>, ghost p: Putting, ghost since: seq<Directory>)
      returns (ok: bool, failed: bool, ghost more: seq<Directory>)
      requires rest != [] && p.digest == digest && p.name == name && p.data == data && PutTo(p, rest, since, false, false)
      modifies this
      ensures PutTo(p, rest[1..], more, ok, failed)
    {
      UploadingUnfolds(digest, files, name, data, rest, p.up, since);
      ok := TryPut(digest, name, data, rest[0]);
      failed := !ok && (|rest| == 1 || !rest[0].reconnects);
      LastAppend(p.dir, since, files);
      more := since + [files];
    }

    /** The search for a parked name: it ends, on a name the listing does not hold. */
    method FindParkedName(stem: Name, names: set<Name>) returns (parked: Name)
      ensures parked == ParkedName(stem, names) && parked !in names
    {
      parked := stem;
      var n := 2;
      while parked in names
        invariant n >= 2 && parked == Numbered(stem, n - 1)
        invariant FreeFrom(stem, names, 1) == FreeFrom(stem, names, n - 1)
        decreases |names - Tried(stem, n - 1)|
      {
        TriedShrinks(stem, names, n - 1);
        parked := stem + "-" + Decimal.Print(n);
        n := n + 1;
      }
    }

    /** The last two operations: rename the upload into place and read it back. */
    method SwapIn(digest: Digest, data: Bytes, swap: RenameAnswer, last: ReadAnswer) returns (ok: bool)
      modifies this
      ensures var end := Swapping(digest, old(files), data, swap, last);
              ok == end.ok && trace == old(trace) + end.trace && files == end.trace[0]
    {
      ok := Rename(UPLOAD, PAYLOAD, swap);
      if !ok {
        return;
      }
      var back := Retrieve(PAYLOAD, last);
      ok := Verified(digest, back, data);
    }

    /** `park_and_deploy`; false stands for any exception. */
    method ParkAndDeploy(digest: Digest, data: Bytes, s: Script) returns (ok: bool)
      modifies this
      ensures var run := Deploying(digest, old(files), data, s);
              ok == run.ok && trace == old(trace) + run.trace && files == Last(old(files), run.trace)
    {
      var read := Retrieve(PAYLOAD, s.first);
      if read.Lost? {
        return false;
      }
      var current := if read.Content? then read.bytes else [];
      ok := PutVerified(digest, UPLOAD, data, s.attempts);
      if !ok {
        return;
      }
      if current != [] {
        if !s.lists {
          return false;
        }
        var parked := FindParkedName(Stem(digest, current), files.Keys);
        ok := Rename(PAYLOAD, parked, s.park);
        if !ok {
          return;
        }
      }
      ok := SwapIn(digest, data, s.swap, s.last);
    }
  }
}
