/**
  Access to the tracee of linux/remote.rs and the alias of linux/execute.rs: chunked
  pathname reads, the bounded in-place rewrite, and decimal numbers in proc paths.
 */
module Remote {
  import opened Errno
  import opened Wrappers
  import opened Paths
  import opened Bind

  const MAX_PATH: nat := 4096
  const CHUNK: nat := 256

  /** What one transfer between the processes answers: an errno, or how many bytes moved. */
  datatype Transfer = Failed(errno: int) | Moved(count: nat)

  /** Reads may be short but never empty, and stay inside mapped memory. */
  ghost predicate HonestReads(mem: Bytes, source: (nat, nat) -> Transfer) {
    forall a: nat, n: nat :: n > 0 && source(a, n).Moved? ==>
      1 <= source(a, n).count <= n && a + source(a, n).count <= |mem|
  }

  // ----- Reading a pathname -----

  /** The bytes from `a` up to the first NUL below `limit`. */
  function StringAt(mem: Bytes, a: nat, limit: nat): Option<Bytes>
    decreases limit - a
  {
    if a >= limit || a >= |mem| then None
    else if mem[a] == 0 then Some([])
    else Prepend([mem[a]], StringAt(mem, a + 1, limit))
  }

  /** The pathname at `a`: terminated within 4096 bytes, or none. */
  function PathnameAt(mem: Bytes, a: nat): Option<Bytes> {
    StringAt(mem, a, a + MAX_PATH)
  }

  function Prepend(s: Bytes, rest: Option<Bytes>): Option<Bytes> {
    match rest
    case None => None
    case Some(r) => Some(s + r)
  }

  lemma PrependTwice(a: Bytes, b: Bytes, rest: Option<Bytes>)
    ensures Prepend(a, Prepend(b, rest)) == Prepend(a + b, rest)
  {
    assert rest.Some? ==> a + (b + rest.value) == a + b + rest.value;
  }

  lemma {:induction false} StringSkips(mem: Bytes, a: nat, limit: nat, k: nat)
    requires a + k <= limit && a + k <= |mem|
    requires NulFree(mem[a..a + k])
    ensures StringAt(mem, a, limit) == Prepend(mem[a..a + k], StringAt(mem, a + k, limit))
    decreases k
  {
    var after := StringAt(mem, a + k, limit);
    if k == 0 {
      assert after.Some? ==> mem[a..a] + after.value == after.value;
    } else {
      assert mem[a..a + k] == [mem[a]] + mem[a + 1..a + k];
      assert mem[a] == mem[a..a + k][0];
      StringSkips(mem, a + 1, limit, k - 1);
      PrependTwice([mem[a]], mem[a + 1..a + k], after);
    }
  }

  lemma {:induction false} StringEnds(mem: Bytes, a: nat, limit: nat, k: nat)
    requires a + k < limit && a + k < |mem|
    requires NulFree(mem[a..a + k]) && mem[a + k] == 0
    ensures StringAt(mem, a, limit) == Some(mem[a..a + k])
  {
    StringSkips(mem, a, limit, k);
    assert mem[a..a + k] + [] == mem[a..a + k];
  }

  /** A pathname that was read is NUL-free, shorter than 4096 bytes and in memory as read. */
  lemma {:induction false} StringFacts(mem: Bytes, a: nat, limit: nat)
    ensures StringAt(mem, a, limit).Some? ==>
              var s := StringAt(mem, a, limit).value;
              NulFree(s) && a + |s| < limit && a + |s| < |mem| && mem[a..a + |s|] == s && mem[a + |s|] == 0
    ensures StringAt(mem, a, limit).None? ==> forall i :: a <= i < limit && i < |mem| ==> mem[i] != 0
    decreases limit - a
  {
    if a < limit && a < |mem| && mem[a] != 0 {
      StringFacts(mem, a + 1, limit);
      if StringAt(mem, a, limit).Some? {
        var s := StringAt(mem, a, limit).value;
        assert mem[a..a + |s|] == [mem[a]] + mem[a + 1..a + |s|];
      }
    }
  }

  method FindNul(s: Bytes) returns (end: Option<nat>)
    ensures end.Some? ==> end.value < |s| && s[end.value] == 0 && NulFree(s[..end.value])
    ensures end.None? ==> NulFree(s)
  {
    for i := 0 to |s|
      invariant NulFree(s[..i])
    {
      if s[i] == 0 {
        return Some(i);
      }
      assert s[..i + 1] == s[..i] + [s[i]];
    }
    assert s[..|s|] == s;
    return None;
  }

  /** Mapped memory can be read, at least in part. */
  ghost predicate Readable(mem: Bytes, source: (nat, nat) -> Transfer) {
    forall a: nat, n: nat :: a < |mem| && n > 0 ==> source(a, n).Moved?
  }

  /** How much is asked for once `k` bytes were read. */
  function ChunkLength(k: nat): nat
    requires k <= MAX_PATH
  {
    if MAX_PATH - k < CHUNK then MAX_PATH - k else CHUNK
  }

  /** After `k` bytes of the pathname, none of them NUL, the next read fails. */
  ghost predicate FailsAfter(mem: Bytes, address: nat, source: (nat, nat) -> Transfer, k: nat, errno: int) {
    && k < MAX_PATH && source(address + k, ChunkLength(k)) == Failed(errno)
    && (k > 0 ==> address + k <= |mem| && NulFree(mem[address..address + k]))
  }

  ghost predicate ReadFails(mem: Bytes, address: nat, source: (nat, nat) -> Transfer, errno: int) {
    exists k: nat :: FailsAfter(mem, address, source, k, errno)
  }

  /**
    Whatever short reads the environment gives, the result is that of the simple string: success
    is exactly it, an error is that of a read the loop made before any NUL or a pathname that is
    too long, and in readable memory a terminated pathname is always read.
   */
  method ReadPath(mem: Bytes, address: nat, source: (nat, nat) -> Transfer) returns (r: Result<Bytes, int>)
    requires HonestReads(mem, source)
    ensures address == 0 ==> r == Err(EFAULT)
    ensures r.Ok? ==> PathnameAt(mem, address) == Some(r.value)
    ensures r.Err? && address != 0 ==>
              || ReadFails(mem, address, source, r.error)
              || (r.error == ENAMETOOLONG && PathnameAt(mem, address) == None && address + MAX_PATH <= |mem|)
    ensures address != 0 && Readable(mem, source) && PathnameAt(mem, address).Some? ==>
              r == Ok(PathnameAt(mem, address).value)
    ensures address != 0 && Readable(mem, source) && PathnameAt(mem, address).None? && address + MAX_PATH <= |mem| ==>
              r == Err(ENAMETOOLONG)
  {
    if address == 0 {
      return Err(EFAULT);
    }
    ghost var limit := address + MAX_PATH;
    ghost var whole := StringAt(mem, address, limit);
    assert whole.Some? ==> [] + whole.value == whole.value;
    var bytes: Bytes := [];
    while |bytes| < MAX_PATH
      invariant |bytes| <= MAX_PATH
      invariant whole == Prepend(bytes, StringAt(mem, address + |bytes|, limit))
      invariant |bytes| > 0 ==> address + |bytes| <= |mem|
      invariant |bytes| > 0 ==> mem[address..address + |bytes|] == bytes && NulFree(bytes)
      decreases MAX_PATH - |bytes|
    {
      var length := ChunkLength(|bytes|);
      var here := address + |bytes|;
      var answer := source(here, length);
      match answer {
        case Failed(errno) =>
          assert FailsAfter(mem, address, source, |bytes|, errno);
          return Err(errno);
        case Moved(count) =>
          var chunk := mem[here..here + count];
          var end := FindNul(chunk);
          if end.Some? {
            assert chunk[..end.value] == mem[here..here + end.value];
            StringEnds(mem, here, limit, end.value);
            return Ok(bytes + chunk[..end.value]);
          }
          StringSkips(mem, here, limit, count);
          PrependTwice(bytes, chunk, StringAt(mem, here + count, limit));
          assert mem[address..here + count] == bytes + chunk;
          bytes := bytes + chunk;
      }
    }
    return Err(ENAMETOOLONG);
  }

  // ----- Rewriting a pathname -----

  /** The tracee's memory after a write of `bytes` at `address` answered `answer`. */
  function AfterWrite(mem: Bytes, address: nat, bytes: Bytes, answer: Transfer): (r: Bytes)
    requires address + |bytes| <= |mem|
    requires answer.Moved? ==> answer.count <= |bytes|
    ensures |r| == |mem|
    ensures forall i :: 0 <= i < |mem| && !(address <= i < address + |bytes|) ==> r[i] == mem[i]
    ensures answer == Moved(|bytes|) ==> r[address..address + |bytes|] == bytes
  {
    match answer
    case Failed(_) => mem
    case Moved(count) => mem[..address] + bytes[..count] + mem[address + count..]
  }

  /** Anything short of the whole is an error without a number, which is answered as EIO. */
  function WriteResult(bytes: Bytes, answer: Transfer): Result<(), int> {
    match answer
    case Failed(errno) => Err(errno)
    case Moved(count) => if count == |bytes| then Ok(()) else Err(EIO)
  }

  method WriteMemory(mem: array<byte>, address: nat, bytes: Bytes, answer: Transfer) returns (r: Result<(), int>)
    requires address + |bytes| <= mem.Length
    requires answer.Moved? ==> answer.count <= |bytes|
    modifies mem
    ensures r == WriteResult(bytes, answer)
    ensures mem[..] == AfterWrite(old(mem[..]), address, bytes, answer)
  {
    match answer {
      case Failed(errno) =>
        r := Err(errno);
      case Moved(count) =>
        forall i | 0 <= i < count { mem[address + i] := bytes[i]; }
        r := if count == |bytes| then Ok(()) else Err(EIO);
    }
  }

  /** The string at `address`, then the memory file when the first route fails or is short. */
  function AfterRewrite(mem: Bytes, address: nat, original: Bytes, replacement: Bytes,
                        first: Transfer, openError: Option<int>, second: Transfer): (r: Bytes)
    requires address + |original| + 1 <= |mem|
    requires first.Moved? ==> first.count <= |replacement| + 1
    requires second.Moved? ==> second.count <= |replacement| + 1
    ensures |r| == |mem|
  {
    var bytes := replacement + [0];
    if |replacement| > |original| then mem
    else
      var once := AfterWrite(mem, address, bytes, first);
      if first == Moved(|bytes|) || openError.Some? then once else AfterWrite(once, address, bytes, second)
  }

  /** An over-long replacement is refused; then the first route counts, then opening the memory file and writing it. */
  function RewriteResult(original: Bytes, replacement: Bytes, first: Transfer, openError: Option<int>, second: Transfer)
    : Result<(), int>
  {
    if |replacement| > |original| then Err(ENAMETOOLONG)
    else if first == Moved(|replacement| + 1) then Ok(())
    else if openError.Some? then Err(openError.value)
    else WriteResult(replacement + [0], second)
  }

  /**
    Replaces the string at `address`: first by process_vm_writev, then, if that fails or is
    short, through the memory file, which itself may not open.
   */
  method RewritePath(mem: array<byte>, address: nat, original: Bytes, replacement: Bytes,
                     first: Transfer, openError: Option<int>, second: Transfer)
    returns (r: Result<(), int>)
    requires address + |original| + 1 <= mem.Length
    requires first.Moved? ==> first.count <= |replacement| + 1
    requires second.Moved? ==> second.count <= |replacement| + 1
    modifies mem
    ensures mem[..] == AfterRewrite(old(mem[..]), address, original, replacement, first, openError, second)
    ensures r == RewriteResult(original, replacement, first, openError, second)
  {
    var bytes := replacement + [0];
    if |bytes| > |original| + 1 {
      return Err(ENAMETOOLONG);
    }
    r := WriteMemory(mem, address, bytes, first);
    if r.Err? {
      if openError.Some? {
        return Err(openError.value);
      }
      r := WriteMemory(mem, address, bytes, second);
    }
  }

  /**
    By either route and even after a short first write, a rewrite that succeeds leaves exactly
    the replacement to be read back; none changes a byte outside the original string and its
    NUL, and an over-long replacement changes nothing.
   */
  lemma RewriteReadsBack(mem: Bytes, address: nat, original: Bytes, replacement: Bytes,
                         first: Transfer, openError: Option<int>, second: Transfer)
    requires address + |original| + 1 <= |mem|
    requires first.Moved? ==> first.count <= |replacement| + 1
    requires second.Moved? ==> second.count <= |replacement| + 1
    ensures var after := AfterRewrite(mem, address, original, replacement, first, openError, second);
            && (forall i :: 0 <= i < |mem| && !(address <= i <= address + |original|) ==> after[i] == mem[i])
            && (|replacement| > |original| ==> after == mem)
            && (RewriteResult(original, replacement, first, openError, second).Ok?
                && NulFree(replacement) && |replacement| < MAX_PATH
                ==> PathnameAt(after, address) == Some(replacement))
  {
    RewriteSucceedsExactly(original, replacement, first, openError, second);
    if RewriteResult(original, replacement, first, openError, second).Ok? {
      WrittenString(AfterRewrite(mem, address, original, replacement, first, openError, second), address, replacement);
    }
  }

  /**
    A rewrite succeeds exactly when the replacement fits and one of the routes moved all of it with
    its NUL; otherwise its errno says that it is too long, or is that of the second route: of
    opening the memory file, of writing it, or EIO when that was short.
   */
  lemma RewriteSucceedsExactly(original: Bytes, replacement: Bytes,
                               first: Transfer, openError: Option<int>, second: Transfer)
    ensures RewriteResult(original, replacement, first, openError, second).Ok? <==>
            && |replacement| <= |original|
            && (first == Moved(|replacement| + 1) || (openError.None? && second == Moved(|replacement| + 1)))
    ensures var r := RewriteResult(original, replacement, first, openError, second);
            r.Err? ==>
              r.error == if |replacement| > |original| then ENAMETOOLONG
                         else if openError.Some? then openError.value
                         else if second.Failed? then second.errno else EIO
  {
  }

  /** How many bytes a write moved. */
  function Count(answer: Transfer): nat {
    if answer.Moved? then answer.count else 0
  }

  lemma WriteUnchanged(mem: Bytes, address: nat, bytes: Bytes, answer: Transfer)
    requires address + |bytes| <= |mem|
    requires answer.Moved? ==> answer.count <= |bytes|
    ensures var k := Count(answer);
            AfterWrite(mem, address, bytes, answer) == mem <==> mem[address..address + k] == bytes[..k]
    ensures var k := Count(answer);
            AfterWrite(mem, address, bytes, answer) == mem[..address] + bytes[..k] + mem[address + k..]
  {
    var k, after := Count(answer), AfterWrite(mem, address, bytes, answer);
    assert after == mem[..address] + bytes[..k] + mem[address + k..];
    assert after[address..address + k] == bytes[..k];
    assert mem == mem[..address] + mem[address..address + k] + mem[address + k..];
  }

  /** How many bytes of the replacement reached the string by either route. */
  function Reached(first: Transfer, openError: Option<int>, second: Transfer): nat {
    if openError.Some? || Count(second) <= Count(first) then Count(first) else Count(second)
  }

  /** Two writes of one text at one place leave what the longer one wrote. */
  lemma WriteTwice(mem: Bytes, address: nat, bytes: Bytes, first: Transfer, second: Transfer)
    requires address + |bytes| <= |mem|
    requires first.Moved? ==> first.count <= |bytes|
    requires second.Moved? ==> second.count <= |bytes|
    ensures var once := AfterWrite(mem, address, bytes, first);
            AfterWrite(once, address, bytes, second)
            == AfterWrite(mem, address, bytes, Moved(Reached(first, None, second)))
  {
    var once := AfterWrite(mem, address, bytes, first);
    var twice := AfterWrite(once, address, bytes, second);
    var whole := AfterWrite(mem, address, bytes, Moved(Reached(first, None, second)));
    forall i | 0 <= i < |mem| ensures twice[i] == whole[i] {
      WriteAt(mem, address, bytes, first, i);
      WriteAt(once, address, bytes, second, i);
      WriteAt(mem, address, bytes, Moved(Reached(first, None, second)), i);
    }
    assert |twice| == |whole| == |mem|;
  }

  lemma WriteAt(mem: Bytes, address: nat, bytes: Bytes, answer: Transfer, i: nat)
    requires address + |bytes| <= |mem| && i < |mem|
    requires answer.Moved? ==> answer.count <= |bytes|
    ensures AfterWrite(mem, address, bytes, answer)[i] ==
            if address <= i < address + Count(answer) then bytes[i - address] else mem[i]
  {
  }

  /** A refused rewrite leaves the memory as it was exactly when what it wrote before failing was there already. */
  lemma RefusedRewriteExactly(mem: Bytes, address: nat, original: Bytes, replacement: Bytes,
                              first: Transfer, openError: Option<int>, second: Transfer)
    requires address + |original| + 1 <= |mem|
    requires first.Moved? ==> first.count <= |replacement| + 1
    requires second.Moved? ==> second.count <= |replacement| + 1
    requires RewriteResult(original, replacement, first, openError, second).Err?
    ensures AfterRewrite(mem, address, original, replacement, first, openError, second) == mem <==>
            || |replacement| > |original|
            || var k := Reached(first, openError, second);
               mem[address..address + k] == (replacement + [0])[..k]
  {
    var bytes := replacement + [0];
    if |replacement| <= |original| {
      var k := Reached(first, openError, second);
      WriteUnchanged(mem, address, bytes, first);
      WriteUnchanged(mem, address, bytes, Moved(k));
      if openError.None? {
        WriteTwice(mem, address, bytes, first, second);
      }
    }
  }

  lemma WrittenString(mem: Bytes, address: nat, s: Bytes)
    requires address + |s| + 1 <= |mem|
    requires mem[address..address + |s| + 1] == s + [0]
    ensures NulFree(s) && |s| < MAX_PATH ==> PathnameAt(mem, address) == Some(s)
  {
    if NulFree(s) && |s| < MAX_PATH {
      var w := mem[address..address + |s| + 1];
      forall i | address <= i < address + |s| ensures mem[i] == s[i - address] {
        assert w[i - address] == mem[i];
      }
      assert w[|s|] == mem[address + |s|] == 0;
      assert mem[address..address + |s|] == s;
      StringEnds(mem, address, address + MAX_PATH, |s|);
    }
  }

  // ----- Decimal names -----

  function Decimal(n: nat): (r: Bytes)
    ensures r != [] && forall i :: 0 <= i < |r| ==> 48 <= r[i] <= 57
  {
    if n < 10 then [48 + n] else Decimal(n / 10) + [48 + n % 10]
  }

  function DigitsValue(s: Bytes): Option<nat> {
    if s == [] then Some(0)
    else
      var n := |s| - 1;
      match DigitsValue(s[..n])
      case None => None
      case Some(high) => if 48 <= s[n] <= 57 then Some(10 * high + s[n] - 48) else None
  }

  /** `str::parse::<u32>`: an optional plus sign, at least one digit, no overflow. */
  function ParseU32(s: Bytes): Option<nat> {
    var digits := if s != [] && s[0] == 43 then s[1..] else s;
    if digits == [] then None
    else match DigitsValue(digits)
      case None => None
      case Some(n) => if n < 0x1_0000_0000 then Some(n) else None
  }

  lemma {:induction false} DecimalValue(n: nat)
    ensures DigitsValue(Decimal(n)) == Some(n)
  {
    if n < 10 {
      assert Decimal(n)[..0] == [];
    } else {
      DecimalValue(n / 10);
      assert Decimal(n)[..|Decimal(n)| - 1] == Decimal(n / 10);
    }
  }

  const SELF: Bytes := [115, 101, 108, 102]
  const THREAD_SELF: Bytes := [116, 104, 114, 101, 97, 100, 45, 115, 101, 108, 102]
  const CWD: Bytes := [99, 119, 100]
  const FD: Bytes := [102, 100]

  /** `key` is the thread group of `pid`. */
  function IsOwnProcCwd(p: Path, pid: nat, key: nat): bool {
    if p == [PROC, SELF, CWD] || p == [PROC, THREAD_SELF, CWD] then true
    else if |p| < 2 || p[0] != PROC then false
    else match ParseU32(p[1])
      case None => false
      case Some(target) => p == [PROC, Decimal(target), CWD] && (target == pid || target == key)
  }

  /** Parsing and printing the number again leaves exactly the canonical names of the process. */
  lemma {:induction false} OwnProcCwdExactly(p: Path, pid: nat, key: nat)
    requires pid < 0x1_0000_0000 && key < 0x1_0000_0000
    ensures IsOwnProcCwd(p, pid, key) <==>
            || p == [PROC, SELF, CWD] || p == [PROC, THREAD_SELF, CWD]
            || p == [PROC, Decimal(pid), CWD] || p == [PROC, Decimal(key), CWD]
  {
    DecimalValue(pid);
    DecimalValue(key);
  }

  // ----- The executable alias -----

  function ExecutableAlias(fd: nat): Bytes {
    [47, 100, 101, 118, 47, 102, 100, 47] + Decimal(fd)
  }

  lemma {:induction false} DecimalIsName(fd: nat)
    ensures IsName(Decimal(fd)) && NulFree(ExecutableAlias(fd))
  {
    assert Decimal(fd)[0] >= 48;
  }

  lemma {:induction false} AliasIsPrinted(fd: nat)
    ensures Print([DEV, FD, Decimal(fd)]) == ExecutableAlias(fd)
  {
    var p: Path := [DEV, FD, Decimal(fd)];
    var last: Path := [Decimal(fd)];
    assert p[1..] == [FD, Decimal(fd)] && p[1..][1..] == last && last[1..] == [];
    assert PrintNames(last) == [SLASH] + Decimal(fd);
    assert PrintNames(p[1..]) == [SLASH] + FD + ([SLASH] + Decimal(fd));
  }

  /** The alias names a reserved path, so no view ever projects it. */
  lemma {:induction false} AliasIsReserved(v: View, fd: nat)
    ensures IsAbsolute(ExecutableAlias(fd)) && NulFree(ExecutableAlias(fd))
    ensures Normalize(ExecutableAlias(fd)) == [DEV, FD, Decimal(fd)]
    ensures !Projects(v, Normalize(ExecutableAlias(fd)))
  {
    var p: Path := [DEV, FD, Decimal(fd)];
    DecimalIsName(fd);
    AliasIsPrinted(fd);
    PrintRoundTrip(p);
    assert [DEV] <= p;
  }
}
