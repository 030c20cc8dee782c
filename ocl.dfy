/**
 * The host-side bookkeeping of src/ocl.cc: the argument table of a `CLProgram`,
 * the binding of that table when the program is built, the mapped state of a
 * device buffer, the error-string lookup and the memory-size printer.
 *
 * Every call into the OpenCL library is foreign: its result is a parameter.
 */
module OpenCL {
  import opened Wrappers

  /** The largest value of a C `int`. */
  const INT_MAX := 0x7fff_ffff

  /** `CLMemBuffer`: a device buffer and the host address it is mapped at (0 when unmapped). */
  class CLMemBuffer {
    const mem: nat
    const size: nat
    var ptr: nat

    constructor (mem: nat, size: nat)
      ensures this.mem == mem && this.size == size && ptr == 0
    {
      this.mem, this.size, ptr := mem, size, 0;
    }
  }

  /**
   * `unmap_mem_buffer`: a null or unmapped buffer is left alone; a mapped one is
   * unmapped (`issued` says whether the unmap call went to the device) and its
   * address cleared.
   */
  method UnmapMemBuffer(mbuf: CLMemBuffer?) returns (issued: bool)
    modifies mbuf
    ensures issued == (mbuf != null && old(mbuf.ptr) != 0)
    ensures mbuf != null ==> mbuf.ptr == 0
  {
    if mbuf == null || mbuf.ptr == 0 {
      return false;
    }
    mbuf.ptr := 0;
    return true;
  }

  /** `CLArg`: the slot's `ARGTYPE_*` tag and the member of the union it selects. */
  datatype CLArg = ArgNone | ArgInt(ival: int) | ArgFloat(fval: real) | ArgFloat4(vval: seq<real>)
                 | ArgMemBuf(mbuf: CLMemBuffer)

  /**
   * The table after `resize(idx + 1)` when it is too short, then slot `idx` set to `a`:
   * the same length or just long enough, `a` at `idx`, the old slots elsewhere and
   * empty slots in the grown part.
   */
  function WithArg(args: seq<CLArg>, idx: nat, a: CLArg): (r: seq<CLArg>)
    ensures |r| == if idx < |args| then |args| else idx + 1
    ensures r[idx] == a
    ensures forall i :: 0 <= i < |r| && i != idx ==> r[i] == if i < |args| then args[i] else ArgNone
  {
    var grown := if |args| <= idx then args + seq(idx + 1 - |args|, _ => ArgNone) else args;
    grown[idx := a]
  }

  /** Setting a slot keeps every slot before it, so a leading run of set slots survives. */
  lemma WithArgKeepsPrefix(args: seq<CLArg>, idx: nat, a: CLArg)
    ensures |args| <= |WithArg(args, idx, a)|
    ensures idx <= |args| ==> WithArg(args, idx, a)[..idx] == args[..idx]
    ensures idx >= |args| ==> WithArg(args, idx, a)[..|args|] == args
  {
    var r := WithArg(args, idx, a);
    if idx <= |args| {
      assert forall i :: 0 <= i < idx ==> r[..idx][i] == args[..idx][i];
    } else {
      assert forall i :: 0 <= i < |args| ==> r[..|args|][i] == args[i];
    }
  }

  /** Setting the same slot twice keeps only the second value. */
  lemma WithArgOverwrites(args: seq<CLArg>, idx: nat, a: CLArg, b: CLArg)
    ensures WithArg(WithArg(args, idx, a), idx, b) == WithArg(args, idx, b)
  {
    var r, s := WithArg(WithArg(args, idx, a), idx, b), WithArg(args, idx, b);
    assert |r| == |s|;
    assert forall i :: 0 <= i < |r| ==> r[i] == s[i];
  }

  /** Slots with an int, float or buffer tag are bound; `ARGTYPE_FLOAT4` falls to `default`. */
  predicate Bindable(a: CLArg) {
    a.ArgInt? || a.ArgFloat? || a.ArgMemBuf?
  }

  /** The number of leading slots that are not `ARGTYPE_NONE`: where `build`'s loop breaks. */
  function LeadingArgs(args: seq<CLArg>): (n: nat)
    ensures n <= |args|
    ensures forall i :: 0 <= i < n ==> !args[i].ArgNone?
    ensures n < |args| ==> args[n].ArgNone?
  {
    if |args| == 0 || args[0].ArgNone? then 0 else 1 + LeadingArgs(args[1..])
  }

  /** The indices below `n`, from `from` up, whose slots `build` binds, in increasing order. */
  function BindList(args: seq<CLArg>, from: nat, n: nat): (r: seq<nat>)
    requires from <= n <= |args|
    ensures |r| <= n - from
    ensures forall j :: 0 <= j < |r| ==> from <= r[j] < n
    decreases n - from
  {
    if from == n then []
    else if Bindable(args[from]) then [from] + BindList(args, from + 1, n)
    else BindList(args, from + 1, n)
  }

  /** `BindList` holds exactly the bindable slots of its range. */
  lemma {:induction false} BindListSound(args: seq<CLArg>, from: nat, n: nat)
    requires from <= n <= |args|
    ensures forall j :: 0 <= j < |BindList(args, from, n)| ==> Bindable(args[BindList(args, from, n)[j]])
    ensures forall i :: from <= i < n && Bindable(args[i]) ==> i in BindList(args, from, n)
    decreases n - from
  {
    if from < n {
      BindListSound(args, from + 1, n);
      var rest, r := BindList(args, from + 1, n), BindList(args, from, n);
      if Bindable(args[from]) {
        assert r == [from] + rest;
        forall j | 0 <= j < |r|
          ensures Bindable(args[r[j]])
        {
          if j > 0 {
            assert r[j] == rest[j - 1];
          }
        }
        forall i | from <= i < n && Bindable(args[i])
          ensures i in r
        {
          if i > from {
            assert i in rest;
          }
        }
      } else {
        assert r == rest;
      }
    }
  }

  predicate Increasing(s: seq<nat>) {
    forall j, k :: 0 <= j < k < |s| ==> s[j] < s[k]
  }

  /** `BindList` lists its slots in increasing order. */
  lemma {:induction false} BindListSorted(args: seq<CLArg>, from: nat, n: nat)
    requires from <= n <= |args|
    ensures Increasing(BindList(args, from, n))
    decreases n - from
  {
    if from < n {
      BindListSorted(args, from + 1, n);
      var rest := BindList(args, from + 1, n);
      if Bindable(args[from]) {
        var r := [from] + rest;
        assert r == BindList(args, from, n);
        forall j, k | 0 <= j < k < |r|
          ensures r[j] < r[k]
        {
          assert r[k] == rest[k - 1] && from < rest[k - 1];
          if j > 0 {
            assert r[j] == rest[j - 1];
          }
        }
      } else {
        assert rest == BindList(args, from, n);
      }
    }
  }

  /** The slots `build` binds: the bindable ones of the leading run of set slots. */
  function BoundSlots(args: seq<CLArg>): seq<nat> {
    BindList(args, 0, LeadingArgs(args))
  }

  /** Nothing from the first empty slot on is bound, even a slot set after it. */
  lemma {:induction false} SlotsAfterGapUnbound(args: seq<CLArg>, gap: nat, i: nat)
    requires gap <= i < |args| && args[gap].ArgNone?
    ensures i !in BoundSlots(args)
  {
    BindListSound(args, 0, LeadingArgs(args));
  }

  /** A full table of int, float and buffer slots is bound slot by slot, 0 to the end. */
  lemma {:induction false} AllSetAllBound(args: seq<CLArg>, from: nat)
    requires from <= |args| && forall i :: 0 <= i < |args| ==> Bindable(args[i])
    ensures LeadingArgs(args) == |args|
    ensures |BindList(args, from, |args|)| == |args| - from
    ensures forall j :: 0 <= j < |args| - from ==> BindList(args, from, |args|)[j] == from + j
    decreases |args| - from
  {
    if from < |args| {
      AllSetAllBound(args, from + 1);
    }
  }

  /** `CLProgram`: the kernel's name, the program and kernel handles (0 when null), the argument table. */
  class CLProgram {
    const kname: string
    var prog: nat
    var kernel: nat
    var args: seq<CLArg>
    var built: bool

    /** The constructor: no program or kernel, sixteen empty slots, not built. */
    constructor (kname: string)
      ensures this.kname == kname && prog == 0 && kernel == 0 && !built
      ensures |args| == 16 && forall i :: 0 <= i < 16 ==> args[i].ArgNone?
    {
      this.kname := kname;
      prog, kernel := 0, 0;
      args := seq(16, _ => ArgNone);
      built := false;
    }

    /** `set_argi`: grows the table to `idx + 1` only when it is shorter, then stores an int. */
    method SetArgi(idx: int, val: int) returns (ok: bool)
      requires 0 <= idx < INT_MAX
      modifies this
      ensures ok && args == WithArg(old(args), idx, ArgInt(val))
      ensures prog == old(prog) && kernel == old(kernel) && built == old(built)
    {
      if |args| <= idx {
        args := args + seq(idx + 1 - |args|, _ => ArgNone);
      }
      args := args[idx := ArgInt(val)];
      return true;
    }

    /** `set_argf`: as `set_argi`, storing a float. */
    method SetArgf(idx: int, val: real) returns (ok: bool)
      requires 0 <= idx < INT_MAX
      modifies this
      ensures ok && args == WithArg(old(args), idx, ArgFloat(val))
      ensures prog == old(prog) && kernel == old(kernel) && built == old(built)
    {
      if |args| <= idx {
        args := args + seq(idx + 1 - |args|, _ => ArgNone);
      }
      args := args[idx := ArgFloat(val)];
      return true;
    }

    /**
     * `set_arg_buffer`: `buf` is what `create_mem_buffer` returned; a null buffer
     * fails and leaves the table alone, otherwise the slot holds the buffer.
     */
    method SetArgBuffer(idx: int, buf: CLMemBuffer?) returns (ok: bool)
      requires 0 <= idx < INT_MAX
      modifies this
      ensures ok == (buf != null)
      ensures args == if ok then WithArg(old(args), idx, ArgMemBuf(buf)) else old(args)
      ensures prog == old(prog) && kernel == old(kernel) && built == old(built)
    {
      if buf == null {
        return false;
      }
      if |args| <= idx {
        args := args + seq(idx + 1 - |args|, _ => ArgNone);
      }
      args := args[idx := ArgMemBuf(buf)];
      return true;
    }

    /** `get_arg_buffer`: the buffer in slot `idx`, or null when there is none. */
    function GetArgBuffer(idx: int): (r: CLMemBuffer?)
      reads this
      ensures r != null <==> 0 <= idx < |args| && args[idx].ArgMemBuf?
      ensures r != null ==> r == args[idx].mbuf
    {
      if idx < 0 || idx >= |args| || !args[idx].ArgMemBuf? then null else args[idx].mbuf
    }

    /**
     * `build`: `buildErr` is what `clBuildProgram` returned, `newKernel` the handle
     * `clCreateKernel` returned (0 on failure) and `setArg` what `clSetKernelArg`
     * returns for a slot. `tried` lists the slots handed to `clSetKernelArg`, in order:
     * the bound slots up to the first failure. The program is built only when every
     * one of them binds; any failure releases the handles.
     */
    method Build(buildErr: int, newKernel: nat, setArg: (nat, CLArg) -> int) returns (ok: bool, tried: seq<nat>)
      modifies this
      ensures args == old(args)
      ensures var all := BoundSlots(args);
        |tried| <= |all| && tried == all[..|tried|]
        && (ok <==> buildErr == 0 && newKernel != 0 && tried == all && forall j :: 0 <= j < |all| ==> setArg(all[j], args[all[j]]) == 0)
        && (forall j :: 0 <= j < |tried| - 1 ==> setArg(tried[j], args[tried[j]]) == 0)
        && (!ok && tried != [] ==> setArg(tried[|tried| - 1], args[tried[|tried| - 1]]) != 0)
      ensures (buildErr != 0 || newKernel == 0) ==> tried == []
      ensures ok ==> built && kernel == newKernel && prog == old(prog)
      ensures !ok ==> built == old(built) && prog == 0 && (buildErr != 0 ==> kernel == old(kernel))
      ensures !ok && buildErr == 0 ==> kernel == 0
    {
      tried := [];
      if buildErr != 0 {
        prog := 0;
        return false, tried;
      }
      if newKernel == 0 {
        kernel, prog := 0, 0;
        return false, tried;
      }
      kernel := newKernel;
      ok, tried := BindArgs(args, setArg);
      if !ok {
        prog, kernel := 0, 0;
        return;
      }
      built := true;
    }
  }

  /**
   * What binding the argument table leaves: `tried` lists the slots handed to `setArg`
   * (what `clSetKernelArg` returns for a slot), a prefix of the bound slots in index
   * order; all but the last succeeded; `ok` says every bound slot bound, and a failure
   * is the last slot tried.
   */
  predicate Binding(args: seq<CLArg>, setArg: (nat, CLArg) -> int, ok: bool, tried: seq<nat>) {
    var all := BoundSlots(args);
    |tried| <= |all| && tried == all[..|tried|]
    && (ok <==> tried == all && forall j :: 0 <= j < |all| ==> setArg(all[j], args[all[j]]) == 0)
    && (forall j :: 0 <= j < |tried| - 1 ==> setArg(tried[j], args[tried[j]]) == 0)
    && (!ok ==> tried != [] && setArg(tried[|tried| - 1], args[tried[|tried| - 1]]) != 0)
  }

  /** The loop of `build` over the argument table, stopping at the first failure. */
  method BindArgs(args: seq<CLArg>, setArg: (nat, CLArg) -> int) returns (ok: bool, tried: seq<nat>)
    ensures Binding(args, setArg, ok, tried)
  {
    tried := [];
    var n := LeadingArgs(args);
    var i := 0;
    while i < |args|
      invariant n == LeadingArgs(args) && 0 <= i <= n && tried == BindList(args, 0, i)
      invariant forall j :: 0 <= j < |tried| ==> setArg(tried[j], args[tried[j]]) == 0
      decreases |args| - i
    {
      if args[i].ArgNone? {
        break;
      }
      BindListSplit(args, i);
      if Bindable(args[i]) {
        if setArg(i, args[i]) != 0 {
          BindFailed(args, setArg, tried, i);
          return false, tried + [i];
        }
        tried := tried + [i];
      }
      i := i + 1;
    }
    BindDone(args, setArg, tried);
    return true, tried;
  }

  /** A run of the loop that binds every bound slot ends in success. */
  lemma BindDone(args: seq<CLArg>, setArg: (nat, CLArg) -> int, tried: seq<nat>)
    requires tried == BoundSlots(args)
    requires forall j :: 0 <= j < |tried| ==> setArg(tried[j], args[tried[j]]) == 0
    ensures Binding(args, setArg, true, tried)
  {
    assert tried[..|tried|] == tried;
  }

  /** A run of the loop that fails on bindable slot `i` ends in failure with `i` tried last. */
  lemma BindFailed(args: seq<CLArg>, setArg: (nat, CLArg) -> int, tried: seq<nat>, i: nat)
    requires i < LeadingArgs(args) && Bindable(args[i]) && setArg(i, args[i]) != 0
    requires tried == BindList(args, 0, i)
    requires forall j :: 0 <= j < |tried| ==> setArg(tried[j], args[tried[j]]) == 0
    ensures Binding(args, setArg, false, tried + [i])
  {
    BindListSplit(args, i);
    BindListPrefix(args, i + 1, LeadingArgs(args));
    var t := tried + [i];
    assert t[|t| - 1] == i;
  }

  /** One more slot extends the list of bound slots by that slot when it is bindable. */
  lemma {:induction false} BindListSplit(args: seq<CLArg>, i: nat)
    requires i < |args|
    ensures BindList(args, 0, i + 1) == BindList(args, 0, i) + if Bindable(args[i]) then [i] else []
  {
    BindListSnoc(args, 0, i);
  }

  lemma {:induction false} BindListSnoc(args: seq<CLArg>, from: nat, i: nat)
    requires from <= i < |args|
    ensures BindList(args, from, i + 1) == BindList(args, from, i) + if Bindable(args[i]) then [i] else []
    decreases i - from
  {
    if from < i {
      BindListSnoc(args, from + 1, i);
    }
  }

  /** The bound slots below `m` are a prefix of the bound slots below any larger `n`. */
  lemma {:induction false} BindListPrefix(args: seq<CLArg>, m: nat, n: nat)
    requires m <= n <= |args|
    ensures var p, q := BindList(args, 0, m), BindList(args, 0, n); |p| <= |q| && q[..|p|] == p
    decreases n - m
  {
    if m < n {
      BindListPrefix(args, m + 1, n);
      BindListSplit(args, m);
      var p, p1, q := BindList(args, 0, m), BindList(args, 0, m + 1), BindList(args, 0, n);
      assert p1[..|p|] == p;
      assert q[..|p|] == q[..|p1|][..|p|];
    }
  }

  // ---------------------------------------------------------------------------
  // clstrerror

  const INVALID_CODE := "<invalid error code>"
  const UNKNOWN_CODE := "<unknown error>"

  /**
   * `clstrerror`: `table` is the contents of `ocl_errstr`, indexed by the negated
   * error code. Positive codes are invalid; codes past the table are unknown.
   */
  function ClStrError(table: seq<string>, err: int): (r: string)
    ensures err > 0 ==> r == INVALID_CODE
    ensures err <= 0 && -err >= |table| ==> r == UNKNOWN_CODE
    ensures r == INVALID_CODE || r == UNKNOWN_CODE || r in table
  {
    if err > 0 then INVALID_CODE
    else if err <= -|table| then UNKNOWN_CODE
    else table[-err]
  }

  /** Every entry of the table is the message of exactly its own (negated) error code. */
  lemma ClStrErrorCoversTable(table: seq<string>, k: nat)
    requires k < |table|
    ensures ClStrError(table, -(k as int)) == table[k]
  {
  }

  // ---------------------------------------------------------------------------
  // print_memsize

  /** The unit names of `print_memsize`, before the null that ends the list. */
  const SUFFIXES: seq<string> := ["bytes", "kb", "mb", "gb", "tb", "pb"]

  /** `1024^i`. */
  function Pow1024(i: nat): (p: nat)
    ensures p >= 1
  {
    if i == 0 then 1 else 1024 * Pow1024(i - 1)
  }

  /** What `print_memsize` prints: the size in its unit, the unit, and the exact byte count after `kb`. */
  datatype MemSize = MemSize(quotient: nat, suffix: string, raw: Option<nat>)

  /** Dividing twice is dividing by the product. */
  lemma DivDiv(b: nat, p: nat)
    requires p >= 1
    ensures b / p / 1024 == b / (1024 * p)
  {
    var q, r := b / p, b % p;
    var q2, r2 := q / 1024, q % 1024;
    Regroup(p, q2, r2);
    RemainderBelow(p, r2, r);
    DivUnique(b, 1024 * p, q2, p * r2 + r);
  }

  lemma Regroup(p: int, q2: int, r2: int)
    ensures p * (1024 * q2 + r2) == (1024 * p) * q2 + p * r2
  {
  }

  lemma RemainderBelow(p: nat, r2: nat, r: nat)
    requires r2 < 1024 && r < p
    ensures p * r2 + r < 1024 * p
  {
    assert p * r2 <= p * 1023;
  }

  lemma DivUnique(b: nat, d: nat, q: nat, r: nat)
    requires d >= 1 && b == d * q + r && r < d
    ensures b / d == q
  {
    var k := q - b / d;
    assert d * k == b % d - r by {
      assert d * k == d * q - d * (b / d);
    }
    MulAwayFromZero(d, k);
  }

  /** A non-zero multiple of `d` is at least `d` away from zero. */
  lemma MulAwayFromZero(d: int, k: int)
    requires d >= 0
    ensures k >= 1 ==> d * k >= d
    ensures k <= -1 ==> d * k <= -d
  {
    if k >= 1 {
      assert d * k == d + d * (k - 1);
    } else if k <= -1 {
      assert d * k == -d + d * (k + 1);
    }
  }

  /** A quotient is below 1024 exactly when the dividend is below 1024 times the divisor. */
  lemma QuotientBelow(b: nat, p: nat)
    requires p >= 1
    ensures b / p < 1024 <==> b < 1024 * p
  {
    var q, r := b / p, b % p;
    assert b == p * q + r && r < p;
    if q < 1024 {
      assert p * q <= p * 1023;
    } else {
      assert p * q >= p * 1024;
    }
  }

  /**
   * `print_memsize`: the first unit whose quotient is below 1024. For every unit
   * above bytes the size lies between 1024^i and 1024^(i+1); sizes of 1024^6 bytes
   * and more print nothing.
   */
  method PrintMemsize(bytes: nat) returns (out: Option<MemSize>)
    ensures out.None? <==> bytes >= Pow1024(6)
    ensures out.Some? ==> exists i :: (0 <= i < 6 && out.value.suffix == SUFFIXES[i]
      && (i == 0 || Pow1024(i) <= bytes) && bytes < Pow1024(i + 1)
      && out.value.quotient == bytes / Pow1024(i) < 1024
      && out.value.raw == if i > 0 then Some(bytes) else None)
  {
    var memsz := bytes;
    var i := 0;
    while i < |SUFFIXES|
      invariant 0 <= i <= 6 && memsz == bytes / Pow1024(i)
      invariant i > 0 ==> bytes >= Pow1024(i)
    {
      QuotientBelow(bytes, Pow1024(i));
      if memsz < 1024 {
        Pow1024Grows(i + 1, 6);
        return Some(MemSize(memsz, SUFFIXES[i], if i > 0 then Some(bytes) else None));
      }
      DivDiv(bytes, Pow1024(i));
      memsz := memsz / 1024;
      i := i + 1;
    }
    return None;
  }

  lemma {:induction false} Pow1024Grows(i: nat, j: nat)
    requires i <= j
    ensures Pow1024(i) <= Pow1024(j)
    decreases j - i
  {
    if i < j {
      Pow1024Grows(i, j - 1);
    }
  }
}
