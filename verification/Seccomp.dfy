// lib/seccomp/rules.h and filter.c: macros that expand an allowlist into a classic BPF
// program, run here by an interpreter for the three instruction classes the macros use
// (Documentation/networking/filter.rst, seccomp(2)).
module Seccomp {
  import opened Prelude

  // struct sock_filter and the part of struct seccomp_data the filters read.
  datatype SockFilter = SockFilter(code: nat, jt: nat, jf: nat, k: nat)

  datatype SeccompData = SeccompData(nr: nat, arch: nat)

  type Program = seq<SockFilter>

  const BPF_LD_W_ABS: nat := 0x20
  const BPF_JMP_JEQ_K: nat := 0x15
  const BPF_RET_K: nat := 0x06

  const OFFSET_NR: nat := 0
  const OFFSET_ARCH: nat := 4
  const AUDIT_ARCH_X86_64: nat := 0xC000003E
  const SECCOMP_RET_ALLOW: nat := 0x7fff0000
  const SECCOMP_RET_KILL_PROCESS: nat := 0x80000000

  // ---- macro expansion -----------------------------------------------------

  function BPF_STMT(code: nat, k: nat): SockFilter {
    SockFilter(code, 0, 0, k)
  }

  function BPF_JUMP(code: nat, k: nat, jt: nat, jf: nat): SockFilter {
    SockFilter(code, jt, jf, k)
  }

  const KILL_PROCESS: Program := [BPF_STMT(BPF_RET_K, SECCOMP_RET_KILL_PROCESS)]

  const VALIDATE_ARCH: Program :=
    [BPF_STMT(BPF_LD_W_ABS, OFFSET_ARCH),
     BPF_JUMP(BPF_JMP_JEQ_K, AUDIT_ARCH_X86_64, 1, 0)]
    + KILL_PROCESS
    + [BPF_STMT(BPF_LD_W_ABS, OFFSET_NR)]

  function ALLOW_SYSCALL(nr: nat): Program {
    [BPF_JUMP(BPF_JMP_JEQ_K, nr, 0, 1), BPF_STMT(BPF_RET_K, SECCOMP_RET_ALLOW)]
  }

  function Rules(allow: seq<nat>): Program {
    if allow == [] then [] else ALLOW_SYSCALL(allow[0]) + Rules(allow[1..])
  }

  function Expand(allow: seq<nat>): Program {
    VALIDATE_ARCH + Rules(allow) + KILL_PROCESS
  }

  // ---- the interpreter --------------------------------------------------------

  datatype Outcome = Returned(action: nat) | Fault

  // The accumulator after a load; None for an offset or an opcode outside the fragment.
  function Load(data: SeccompData, k: nat): Option<nat> {
    if k == OFFSET_NR then Some(data.nr)
    else if k == OFFSET_ARCH then Some(data.arch)
    else None
  }

  // Jumps are relative and only forward, so a run either returns or leaves the program.
  function Run(p: Program, data: SeccompData, pc: nat, acc: nat): Outcome
    decreases |p| - pc
  {
    if pc >= |p| then Fault
    else
      var i := p[pc];
      if i.code == BPF_RET_K then Returned(i.k)
      else if i.code == BPF_JMP_JEQ_K then
        Run(p, data, pc + 1 + (if acc == i.k then i.jt else i.jf), acc)
      else if i.code == BPF_LD_W_ABS then
        (match Load(data, i.k)
         case None => Fault
         case Some(v) => Run(p, data, pc + 1, v))
      else Fault
  }

  function Evaluate(p: Program, data: SeccompData): Outcome {
    Run(p, data, 0, 0)
  }

  // ---- the kernel's load-time check, for this fragment --------------------------

  predicate WellFormed(p: Program) {
    && |p| > 0
    && p[|p| - 1].code == BPF_RET_K
    && forall pc :: 0 <= pc < |p| ==> Accepted(p, pc)
  }

  predicate Accepted(p: Program, pc: nat)
    requires pc < |p|
  {
    var i := p[pc];
    || i.code == BPF_RET_K
    || (i.code == BPF_LD_W_ABS && (i.k == OFFSET_NR || i.k == OFFSET_ARCH))
    || (i.code == BPF_JMP_JEQ_K && pc + 1 + i.jt < |p| && pc + 1 + i.jf < |p|)
  }

  // Any accepted program returns, from any instruction and with any accumulator: a jump
  // lands inside the program and every step moves forward to a return.
  lemma {:induction false} WellFormedReturns(p: Program, data: SeccompData, pc: nat, acc: nat)
    requires WellFormed(p) && pc < |p|
    ensures Run(p, data, pc, acc).Returned?
    decreases |p| - pc
  {
    var i := p[pc];
    assert Accepted(p, pc);
    if i.code == BPF_JMP_JEQ_K {
      WellFormedReturns(p, data, pc + 1 + (if acc == i.k then i.jt else i.jf), acc);
    } else if i.code == BPF_LD_W_ABS {
      WellFormedReturns(p, data, pc + 1, Load(data, i.k).value);
    }
  }

  // ---- the compiler is correct -----------------------------------------------------

  lemma {:induction false} RulesAt(allow: seq<nat>, j: nat)
    requires j < |allow|
    ensures |Rules(allow)| == 2 * |allow|
    ensures Rules(allow)[2 * j..2 * j + 2] == ALLOW_SYSCALL(allow[j])
  {
    RulesLength(allow);
    RulesLength(allow[1..]);
    if j > 0 {
      RulesAt(allow[1..], j - 1);
      assert Rules(allow)[2 * j..2 * j + 2] == Rules(allow[1..])[2 * (j - 1)..2 * (j - 1) + 2];
    }
  }

  lemma {:induction false} RulesLength(allow: seq<nat>)
    ensures |Rules(allow)| == 2 * |allow|
  {
    if allow != [] { RulesLength(allow[1..]); }
  }

  // The instruction at each position of an expanded program.
  lemma Layout(allow: seq<nat>)
    ensures var p := Expand(allow);
      && |p| == 2 * |allow| + 5
      && p[0] == BPF_STMT(BPF_LD_W_ABS, OFFSET_ARCH)
      && p[1] == BPF_JUMP(BPF_JMP_JEQ_K, AUDIT_ARCH_X86_64, 1, 0)
      && p[2] == p[|p| - 1] == BPF_STMT(BPF_RET_K, SECCOMP_RET_KILL_PROCESS)
      && p[3] == BPF_STMT(BPF_LD_W_ABS, OFFSET_NR)
      && forall j :: 0 <= j < |allow| ==>
           && p[4 + 2 * j] == BPF_JUMP(BPF_JMP_JEQ_K, allow[j], 0, 1)
           && p[5 + 2 * j] == BPF_STMT(BPF_RET_K, SECCOMP_RET_ALLOW)
  {
    RulesLength(allow);
    var p := Expand(allow);
    forall j | 0 <= j < |allow|
      ensures p[4 + 2 * j] == BPF_JUMP(BPF_JMP_JEQ_K, allow[j], 0, 1)
      ensures p[5 + 2 * j] == BPF_STMT(BPF_RET_K, SECCOMP_RET_ALLOW)
    {
      RulesAt(allow, j);
      var rule := Rules(allow)[2 * j..2 * j + 2];
      assert p[4 + 2 * j] == rule[0] && p[5 + 2 * j] == rule[1];
    }
  }

  // From the j-th rule on, the program decides membership in the rest of the list.
  lemma {:induction false} RulesDecide(allow: seq<nat>, data: SeccompData, j: nat)
    requires j <= |allow|
    ensures Run(Expand(allow), data, 4 + 2 * j, data.nr)
         == Returned(if data.nr in allow[j..] then SECCOMP_RET_ALLOW else SECCOMP_RET_KILL_PROCESS)
    decreases |allow| - j
  {
    Layout(allow);
    var p := Expand(allow);
    if j < |allow| {
      assert allow[j..] == [allow[j]] + allow[j + 1..];
      if data.nr == allow[j] {
        assert Run(p, data, 5 + 2 * j, data.nr) == Returned(SECCOMP_RET_ALLOW);
      } else {
        RulesDecide(allow, data, j + 1);
        assert 4 + 2 * (j + 1) == 4 + 2 * j + 1 + 1;
      }
    } else {
      assert 4 + 2 * j == |p| - 1;
    }
  }

  // Main result: for every allowlist, every architecture and every system call number, the
  // expanded program allows exactly the listed calls on x86_64 and kills on everything else.
  lemma ExpandCorrect(allow: seq<nat>, data: SeccompData)
    ensures Evaluate(Expand(allow), data)
         == Returned(if data.arch == AUDIT_ARCH_X86_64 && data.nr in allow
                     then SECCOMP_RET_ALLOW else SECCOMP_RET_KILL_PROCESS)
  {
    Layout(allow);
    var p := Expand(allow);
    assert Run(p, data, 0, 0) == Run(p, data, 1, data.arch);
    if data.arch == AUDIT_ARCH_X86_64 {
      assert Run(p, data, 1, data.arch) == Run(p, data, 3, data.arch) == Run(p, data, 4, data.nr);
      RulesDecide(allow, data, 0);
      assert allow[0..] == allow;
    } else {
      assert Run(p, data, 1, data.arch) == Run(p, data, 2, data.arch);
    }
  }

  // Every expansion has its jumps inside and ends in a return.
  lemma ExpandWellFormed(allow: seq<nat>)
    ensures WellFormed(Expand(allow)) && |Expand(allow)| == 2 * |allow| + 5
  {
    Layout(allow);
    var p := Expand(allow);
    forall pc | 0 <= pc < |p| ensures Accepted(p, pc) {
      if 4 <= pc < |p| - 1 {
        var j := (pc - 4) / 2;
        assert pc == 4 + 2 * j || pc == 5 + 2 * j;
        assert 0 <= j < |allow|;
      }
    }
  }

  // The kernel's check also bounds the length.
  const BPF_MAXINSNS: nat := 4096

  predicate Loads(p: Program) {
    WellFormed(p) && |p| <= BPF_MAXINSNS
  }

  // So an expansion is loaded if and only if its list has at most 2045 entries.
  lemma ExpandLoadsIff(allow: seq<nat>)
    ensures Loads(Expand(allow)) <==> |allow| <= 2045
  {
    ExpandWellFormed(allow);
  }

  // ---- the shipped profiles (x86_64 system call numbers) -----------------------------

  const HELLO: seq<nat> := [1, 60, 231, 15]

  const WORKLOAD: seq<nat> :=
    [59, 12, 9, 11, 10, 158, 302,
     1, 0, 3, 102, 63, 318, 157, 89, 72,
     41, 49, 50, 43, 288, 54, 7, 271,
     218, 273, 334, 15, 231]

  const DEBUG_FILES: seq<nat> := [257, 0, 1, 3, 21, 4, 5, 6, 262, 78, 217, 89, 267, 8, 79, 80, 22, 293]
  const DEBUG_PROCESSES: seq<nat> := [59, 56, 61, 231, 39, 110, 111, 109]
  const DEBUG_MEMORY: seq<nat> := [12, 9, 11, 10, 17, 158, 302, 63, 318, 157, 202]
  const DEBUG_IDENTITY: seq<nat> := [102, 107, 104, 108, 118, 120, 115, 105, 106, 116, 125, 126]
  const DEBUG_SIGNALS: seq<nat> := [13, 14, 15, 131, 7, 23, 16, 72, 32, 33, 292]
  const DEBUG_REST: seq<nat> := [41, 42, 218, 273, 334]

  const DEBUG: seq<nat> :=
    DEBUG_FILES + DEBUG_PROCESSES + DEBUG_MEMORY + DEBUG_IDENTITY + DEBUG_SIGNALS + DEBUG_REST

  // The three lengths exported with the programs, all of which load.
  lemma ProfileLengths()
    ensures |Expand(HELLO)| == 13 && |Expand(WORKLOAD)| == 63 && |Expand(DEBUG)| == 135
    ensures Loads(Expand(HELLO)) && Loads(Expand(WORKLOAD)) && Loads(Expand(DEBUG))
  {
    ExpandWellFormed(HELLO);
    ExpandWellFormed(WORKLOAD);
    ExpandWellFormed(DEBUG);
  }

  predicate Allows(allow: seq<nat>, data: SeccompData) {
    Evaluate(Expand(allow), data) == Returned(SECCOMP_RET_ALLOW)
  }

  lemma AllowsIff(allow: seq<nat>, data: SeccompData)
    ensures Allows(allow, data) <==> data.arch == AUDIT_ARCH_X86_64 && data.nr in allow
    ensures !Allows(allow, data) <==> Evaluate(Expand(allow), data) == Returned(SECCOMP_RET_KILL_PROCESS)
  {
    ExpandCorrect(allow, data);
  }

  // In the kernel's numbers: the architecture word and the two actions.
  lemma ActionsAre(allow: seq<nat>, data: SeccompData)
    ensures Evaluate(Expand(allow), data)
         == Returned(if data.arch == 0xC000_003E && data.nr in allow then 0x7FFF_0000 else 0x8000_0000)
  {
    ExpandCorrect(allow, data);
  }

  // The three shipped filters, by system call number on x86_64.
  lemma ShippedFilters(data: SeccompData)
    ensures Allows(HELLO, data) <==> data.arch == AUDIT_ARCH_X86_64 && data.nr in {1, 15, 60, 231}
    ensures Allows(WORKLOAD, data) <==> data.arch == AUDIT_ARCH_X86_64 && IsWorkloadCall(data.nr)
    ensures Allows(DEBUG, data) <==> data.arch == AUDIT_ARCH_X86_64 && IsDebugCall(data.nr)
  {
    AllowsIff(HELLO, data);
    AllowsIff(WORKLOAD, data);
    AllowsIff(DEBUG, data);
    InHello(HELLO, data.nr);
    InWorkload(data.nr);
    InDebug(data.nr);
  }

  // read, write, close, poll, mmap, mprotect, munmap, brk, rt_sigreturn; socket, accept, bind,
  // listen, setsockopt; execve, uname, fcntl, readlink, getuid; prctl, arch_prctl,
  // set_tid_address, exit_group; ppoll, set_robust_list, accept4, prlimit64, getrandom, rseq.
  predicate IsWorkloadCall(nr: nat) {
    || nr <= 1 || nr == 3 || nr == 7 || 9 <= nr <= 12 || nr == 15
    || nr == 41 || nr == 43 || nr == 49 || nr == 50 || nr == 54
    || nr == 59 || nr == 63 || nr == 72 || nr == 89 || nr == 102
    || nr == 157 || nr == 158 || nr == 218 || nr == 231
    || nr == 271 || nr == 273 || nr == 288 || nr == 302 || nr == 318 || nr == 334
  }

  lemma InWorkload(nr: nat)
    ensures nr in WORKLOAD <==> IsWorkloadCall(nr)
  {
  }

  // openat, read, write, close, access, stat, fstat, lstat, newfstatat, getdents, getdents64,
  // readlink, readlinkat, lseek, getcwd, chdir, pipe, pipe2.
  predicate IsFileCall(nr: nat) {
    || nr <= 1 || 3 <= nr <= 6 || nr == 8 || nr == 21 || nr == 22 || 78 <= nr <= 80 || nr == 89
    || nr == 217 || nr == 257 || nr == 262 || nr == 267 || nr == 293
  }

  // execve, clone, wait4, exit_group, getpid, getppid, getpgrp, setpgid.
  predicate IsProcessCall(nr: nat) {
    nr == 39 || nr == 56 || nr == 59 || nr == 61 || 109 <= nr <= 111 || nr == 231
  }

  // brk, mmap, munmap, mprotect, pread64, arch_prctl, prlimit64, uname, getrandom, prctl, futex.
  predicate IsMemoryCall(nr: nat) {
    9 <= nr <= 12 || nr == 17 || nr == 63 || nr == 157 || nr == 158 || nr == 202 || nr == 302 || nr == 318
  }

  // getuid, geteuid, getgid, getegid, getresuid, getresgid, getgroups, setuid, setgid, setgroups,
  // capget, capset.
  predicate IsIdentityCall(nr: nat) {
    || nr == 102 || 104 <= nr <= 108 || nr == 115 || nr == 116 || nr == 118 || nr == 120 || nr == 125 || nr == 126
  }

  // rt_sigaction, rt_sigprocmask, rt_sigreturn, sigaltstack, poll, select, ioctl, fcntl, dup,
  // dup2, dup3.
  predicate IsSignalCall(nr: nat) {
    nr == 7 || 13 <= nr <= 16 || nr == 23 || nr == 32 || nr == 33 || nr == 72 || nr == 131 || nr == 292
  }

  // socket, connect; set_tid_address, set_robust_list, rseq.
  predicate IsOtherCall(nr: nat) {
    nr == 41 || nr == 42 || nr == 218 || nr == 273 || nr == 334
  }

  predicate IsDebugCall(nr: nat) {
    IsFileCall(nr) || IsProcessCall(nr) || IsMemoryCall(nr) || IsIdentityCall(nr) || IsSignalCall(nr) || IsOtherCall(nr)
  }

  lemma InSections(nr: nat)
    ensures nr in DEBUG_FILES <==> IsFileCall(nr)
    ensures nr in DEBUG_PROCESSES <==> IsProcessCall(nr)
    ensures nr in DEBUG_MEMORY <==> IsMemoryCall(nr)
  {
  }

  lemma InOtherSections(nr: nat)
    ensures nr in DEBUG_IDENTITY <==> IsIdentityCall(nr)
    ensures nr in DEBUG_SIGNALS <==> IsSignalCall(nr)
    ensures nr in DEBUG_REST <==> IsOtherCall(nr)
  {
  }

  lemma InSix(a: seq<nat>, b: seq<nat>, c: seq<nat>, d: seq<nat>, e: seq<nat>, f: seq<nat>, nr: nat)
    ensures nr in a + b + c + d + e + f <==> nr in a || nr in b || nr in c || nr in d || nr in e || nr in f
  {
  }

  lemma InDebug(nr: nat)
    ensures nr in DEBUG <==> IsDebugCall(nr)
  {
    InSections(nr);
    InOtherSections(nr);
    InSix(DEBUG_FILES, DEBUG_PROCESSES, DEBUG_MEMORY, DEBUG_IDENTITY, DEBUG_SIGNALS, DEBUG_REST, nr);
  }

  // The hello filter: write, exit, exit_group and rt_sigreturn on x86_64, and nothing else.
  lemma HelloFilter(data: SeccompData)
    ensures Evaluate(Expand(HELLO), data)
         == Returned(if data.arch == 0xC000_003E && data.nr in {1, 15, 60, 231} then 0x7FFF_0000 else 0x8000_0000)
  {
    ActionsAre(HELLO, data);
    InHello(HELLO, data.nr);
  }

  lemma InHello(hello: seq<nat>, nr: nat)
    requires hello == HELLO
    ensures nr in hello <==> nr == 1 || nr == 60 || nr == 231 || nr == 15
  {
    assert hello[0] == 1 && hello[1] == 60 && hello[2] == 231 && hello[3] == 15;
  }
}
