/** The portable flag container, loader_flags (include/RLL/RLL.hpp:42-169, 409-461).
    It carries two 32-bit masks: one in the Unix dlopen vocabulary, where the
    lazy and immediate binding modes exclude each other, and one in the Windows
    LoadLibraryEx vocabulary, which is a plain bit set. */
module Flags {
  import opened Errors

  /** A bit position of a 32-bit unsigned int. */
  type BitIndex = i: nat | i < 32

  /** An unsigned int bit mask, as the set of positions of its 1 bits: bit i
      stands for the value 2^i, `a | b` is `a + b`, `a & b` is `a * b`, and
      `a & ~b` is `a - b`. */
  type Mask = set<BitIndex>

  datatype UnixFlag =
    | LoadLazy | LoadNow | LoadLocal | LoadGlobal | LoadDeepBind | LoadNoDelete | LoadNoLoad

  datatype WindowsFlag =
    | DontResolveReferences | IgnoreCodeAuthzLevel | RequireSignedTarget | RequireCurrentDirSafe
    | LoadAsDatafile | LoadAsExclusiveDatafile | LoadAsImageResource
    | SearchApplicationDir | SearchDefaultDirs | SearchDllLoadDir | SearchSystem32Dir
    | SearchUserDirs | SearchWithAlteredPath

  /** LOAD_LAZY, 0x1. */
  const LazyBit: Mask := UnixBits(LoadLazy)
  /** LOAD_NOW, 0x2. */
  const NowBit: Mask := UnixBits(LoadNow)
  /** Both binding modes, LOAD_LAZY | LOAD_NOW. */
  const ModeBits: Mask := LazyBit + NowBit
  /** Every bit some Unix flag stands for: 0x110F. */
  const UnixVocabulary: Mask := {0, 1, 2, 3, 8, 12}
  /** Every bit some Windows flag stands for: 0x3FFB. */
  const WindowsVocabulary: Mask := {0, 1, 3, 4, 5, 6, 7, 8, 9, 10, 11, 12, 13}

  /** The position of the one bit of a Unix flag's enumerator value; LOAD_LOCAL
      is 0 and has none. */
  function UnixPosition(f: UnixFlag): Option<BitIndex> {
    match f
    case LoadLazy => Some(0)       // 0x00001
    case LoadNow => Some(1)        // 0x00002
    case LoadLocal => None         // 0x00000
    case LoadGlobal => Some(8)     // 0x00100
    case LoadDeepBind => Some(3)   // 0x00008
    case LoadNoDelete => Some(12)  // 0x01000
    case LoadNoLoad => Some(2)     // 0x00004
  }

  /** The enumerator value of a Unix flag, as a mask. */
  function UnixBits(f: UnixFlag): Mask {
    match UnixPosition(f)
    case None => {}
    case Some(b) => {b}
  }

  /** The position of the one bit of a Windows flag's enumerator value. */
  function WindowsPosition(f: WindowsFlag): BitIndex {
    match f
    case DontResolveReferences => 0     // 0x00000001
    case IgnoreCodeAuthzLevel => 4      // 0x00000010
    case RequireSignedTarget => 7       // 0x00000080
    case RequireCurrentDirSafe => 13    // 0x00002000
    case LoadAsDatafile => 1            // 0x00000002
    case LoadAsExclusiveDatafile => 6   // 0x00000040
    case LoadAsImageResource => 5       // 0x00000020
    case SearchApplicationDir => 9      // 0x00000200
    case SearchDefaultDirs => 12        // 0x00001000
    case SearchDllLoadDir => 8          // 0x00000100
    case SearchSystem32Dir => 11        // 0x00000800
    case SearchUserDirs => 10           // 0x00000400
    case SearchWithAlteredPath => 3     // 0x00000008
  }

  /** The enumerator value of a Windows flag, as a mask. */
  function WindowsBits(f: WindowsFlag): Mask {
    {WindowsPosition(f)}
  }

  /** The binding-mode bit that a Unix flag excludes: the other mode for the two
      modes, nothing for every other flag. */
  function Partner(f: UnixFlag): Mask {
    match f
    case LoadLazy => NowBit
    case LoadNow => LazyBit
    case _ => {}
  }

  /** Neither or exactly one binding mode is set. */
  predicate AtMostOneMode(m: Mask) {
    !(0 in m && 1 in m)
  }

  /** Exactly one binding mode is set. */
  predicate ExactlyOneMode(m: Mask) {
    (0 in m) != (1 in m)
  }

  // ---------------------------------------------------------------------------
  // The mask updates, flattened

  /** The Unix mask after add_flag(f). */
  function AddUnixMask(m: Mask, f: UnixFlag): Mask {
    (m - Partner(f)) + UnixBits(f)
  }

  /** The Unix mask after remove_flag(f). */
  function RemoveUnixMask(m: Mask, f: UnixFlag): Mask {
    (m - UnixBits(f)) + Partner(f)
  }

  /** The Windows mask after add_flag(f). */
  function AddWindowsMask(m: Mask, f: WindowsFlag): Mask {
    m + WindowsBits(f)
  }

  /** The Windows mask after remove_flag(f). */
  function RemoveWindowsMask(m: Mask, f: WindowsFlag): Mask {
    m - WindowsBits(f)
  }

  /** add_flag(f) on the Unix mask sets f's bit, clears the binding mode f
      excludes, and changes no other bit. */
  lemma AddUnixMaskEffect(m: Mask, f: UnixFlag)
    ensures UnixBits(f) <= AddUnixMask(m, f)
    ensures AddUnixMask(m, f) * Partner(f) == {}
    ensures AddUnixMask(m, f) - (UnixBits(f) + Partner(f)) == m - (UnixBits(f) + Partner(f))
  {
  }

  /** remove_flag(f) on the Unix mask clears f's bit, sets the binding mode f
      excludes (so removing one mode selects the other), and changes no other
      bit. */
  lemma RemoveUnixMaskEffect(m: Mask, f: UnixFlag)
    ensures RemoveUnixMask(m, f) * UnixBits(f) == {}
    ensures Partner(f) <= RemoveUnixMask(m, f)
    ensures RemoveUnixMask(m, f) - (UnixBits(f) + Partner(f)) == m - (UnixBits(f) + Partner(f))
  {
  }

  /** Windows add_flag sets exactly f's bit; remove_flag clears exactly it. */
  lemma WindowsMaskEffect(m: Mask, f: WindowsFlag)
    ensures WindowsBits(f) <= AddWindowsMask(m, f)
    ensures AddWindowsMask(m, f) - WindowsBits(f) == m - WindowsBits(f)
    ensures RemoveWindowsMask(m, f) * WindowsBits(f) == {}
    ensures RemoveWindowsMask(m, f) - WindowsBits(f) == m - WindowsBits(f)
  {
  }

  /** Windows add_flag and remove_flag are idempotent. */
  lemma WindowsUpdatesIdempotent(m: Mask, f: WindowsFlag)
    ensures AddWindowsMask(AddWindowsMask(m, f), f) == AddWindowsMask(m, f)
    ensures RemoveWindowsMask(RemoveWindowsMask(m, f), f) == RemoveWindowsMask(m, f)
  {
  }

  /** Removing a Windows flag undoes adding it when it was not set before. */
  lemma WindowsAddRemoveRoundTrip(m: Mask, f: WindowsFlag)
    requires m * WindowsBits(f) == {}
    ensures RemoveWindowsMask(AddWindowsMask(m, f), f) == m
  {
    var r := RemoveWindowsMask(AddWindowsMask(m, f), f);
    forall b: BitIndex
      ensures b in r <==> b in m
    {
      if b == WindowsPosition(f) {
        assert b in m * WindowsBits(f) <==> b in m;
      }
    }
  }

  // ---------------------------------------------------------------------------
  // The list constructor, as folds

  /** The Unix mask after add_flag for each flag of fs in order, from m. */
  function AddAllUnix(m: Mask, fs: seq<UnixFlag>): Mask
    decreases |fs|
  {
    if fs == [] then m else AddUnixMask(AddAllUnix(m, fs[..|fs| - 1]), fs[|fs| - 1])
  }

  /** The Windows mask after add_flag for each flag of ws in order, from m. */
  function AddAllWindows(m: Mask, ws: seq<WindowsFlag>): Mask
    decreases |ws|
  {
    if ws == [] then m else AddWindowsMask(AddAllWindows(m, ws[..|ws| - 1]), ws[|ws| - 1])
  }

  /** The union of the bits of the given Unix flags. */
  function UnixUnion(fs: seq<UnixFlag>): Mask
    decreases |fs|
  {
    if fs == [] then {} else UnixUnion(fs[..|fs| - 1]) + UnixBits(fs[|fs| - 1])
  }

  /** The union of the bits of the given Windows flags. */
  function WindowsUnion(ws: seq<WindowsFlag>): Mask
    decreases |ws|
  {
    if ws == [] then {} else WindowsUnion(ws[..|ws| - 1]) + WindowsBits(ws[|ws| - 1])
  }

  /** The last binding mode that occurs in fs, if any. */
  function LastMode(fs: seq<UnixFlag>): Option<UnixFlag>
    decreases |fs|
  {
    if fs == [] then None
    else if fs[|fs| - 1] == LoadLazy || fs[|fs| - 1] == LoadNow then Some(fs[|fs| - 1])
    else LastMode(fs[..|fs| - 1])
  }

  /** Adding Windows flags in turn sets exactly the union of their bits. */
  lemma {:induction false} AddAllWindowsIsUnion(m: Mask, ws: seq<WindowsFlag>)
    ensures AddAllWindows(m, ws) == m + WindowsUnion(ws)
    decreases |ws|
  {
    if ws != [] {
      AddAllWindowsIsUnion(m, ws[..|ws| - 1]);
    }
  }

  /** A bit is in the union of some Windows flags exactly when one of them
      stands for it. */
  lemma {:induction false} WindowsUnionMembers(ws: seq<WindowsFlag>, b: BitIndex)
    ensures b in WindowsUnion(ws) <==> exists i :: 0 <= i < |ws| && WindowsPosition(ws[i]) == b
    decreases |ws|
  {
    if ws != [] {
      var init := ws[..|ws| - 1];
      WindowsUnionMembers(init, b);
      if b in WindowsUnion(init) {
        var i :| 0 <= i < |init| && WindowsPosition(init[i]) == b;
        assert ws[i] == init[i];
      }
      if exists i :: 0 <= i < |ws| && WindowsPosition(ws[i]) == b {
        var i :| 0 <= i < |ws| && WindowsPosition(ws[i]) == b;
        if i < |init| {
          assert init[i] == ws[i];
        }
      }
    }
  }

  /** Adding Unix flags in turn: of the two binding modes the one that occurs
      last wins (neither changes when none occurs); every other bit ends up set
      exactly when it was set before or some added flag stands for it. */
  lemma {:induction false} AddAllUnixLaterModeWins(m: Mask, fs: seq<UnixFlag>)
    ensures LastMode(fs) == Some(LoadLazy) ==> 0 in AddAllUnix(m, fs) && 1 !in AddAllUnix(m, fs)
    ensures LastMode(fs) == Some(LoadNow) ==> 1 in AddAllUnix(m, fs) && 0 !in AddAllUnix(m, fs)
    ensures LastMode(fs) == None ==> AddAllUnix(m, fs) * ModeBits == m * ModeBits
    ensures AddAllUnix(m, fs) - ModeBits == (m + UnixUnion(fs)) - ModeBits
    decreases |fs|
  {
    if fs != [] {
      var init, f := fs[..|fs| - 1], fs[|fs| - 1];
      AddAllUnixLaterModeWins(m, init);
      var before := AddAllUnix(m, init);
      assert AddAllUnix(m, fs) == (before - Partner(f)) + UnixBits(f);
      assert UnixUnion(fs) == UnixUnion(init) + UnixBits(f);
      assert Partner(f) <= ModeBits;
      forall b: BitIndex | b != 0 && b != 1
        ensures b in AddAllUnix(m, fs) <==> b in m + UnixUnion(fs)
      {
        assert b in before - ModeBits <==> b in (m + UnixUnion(init)) - ModeBits;
      }
    }
  }

  // ---------------------------------------------------------------------------
  // Sequences of operations on the container

  datatype Masks = Masks(unix: Mask, windows: Mask)

  /** One mutating call on a loader_flags object. */
  datatype FlagOp =
    | AddUnix(uf: UnixFlag)
    | RemoveUnix(uf: UnixFlag)
    | AddWindows(wf: WindowsFlag)
    | RemoveWindows(wf: WindowsFlag)
    | ClearUnix
    | ClearWindows

  function Step(s: Masks, op: FlagOp): Masks {
    match op
    case AddUnix(f) => s.(unix := AddUnixMask(s.unix, f))
    case RemoveUnix(f) => s.(unix := RemoveUnixMask(s.unix, f))
    case AddWindows(f) => s.(windows := AddWindowsMask(s.windows, f))
    case RemoveWindows(f) => s.(windows := RemoveWindowsMask(s.windows, f))
    case ClearUnix => s.(unix := LazyBit)
    case ClearWindows => s.(windows := {})
  }

  function Run(s: Masks, ops: seq<FlagOp>): Masks
    decreases |ops|
  {
    if ops == [] then s else Run(Step(s, ops[0]), ops[1..])
  }

  /** The state every reachable container is in: at most one binding mode,
      and only bits that some flag of the vocabulary stands for. */
  predicate WellFormed(s: Masks) {
    AtMostOneMode(s.unix) && s.unix <= UnixVocabulary && s.windows <= WindowsVocabulary
  }

  /** No single operation sets both binding modes, takes a mask with exactly one
      of them to a mask with neither, or sets a bit outside the vocabulary. */
  lemma StepKeepsModes(s: Masks, op: FlagOp)
    ensures WellFormed(s) ==> WellFormed(Step(s, op))
    ensures ExactlyOneMode(s.unix) ==> ExactlyOneMode(Step(s, op).unix)
  {
    match op
    case AddUnix(f) => AddUnixMaskEffect(s.unix, f);
    case RemoveUnix(f) => RemoveUnixMaskEffect(s.unix, f);
    case _ =>
  }

  /** Through any sequence of operations, a well-formed container stays
      well-formed, and one with exactly one binding mode keeps exactly one. */
  lemma {:induction false} RunKeepsModes(s: Masks, ops: seq<FlagOp>)
    ensures WellFormed(s) ==> WellFormed(Run(s, ops))
    ensures ExactlyOneMode(s.unix) ==> ExactlyOneMode(Run(s, ops).unix)
    decreases |ops|
  {
    if ops != [] {
      StepKeepsModes(s, ops[0]);
      RunKeepsModes(Step(s, ops[0]), ops[1..]);
    }
  }

  // ---------------------------------------------------------------------------
  // The container itself

  class LoaderFlags {
    var uflags: Mask
    var wflags: Mask

    /** The current value of both masks. */
    ghost function State(): Masks
      reads this
    {
      Masks(uflags, wflags)
    }

    ghost predicate Valid()
      reads this
    {
      WellFormed(State())
    }

    /** The default container: lazy binding, no Windows flag. */
    constructor ()
      ensures Valid()
      ensures uflags == LazyBit && wflags == {}
      ensures ExactlyOneMode(uflags)
    {
      uflags := LazyBit;
      wflags := {};
    }

    /** The list constructor: both masks start empty and each flag is added in
        order, the Unix ones first. */
    constructor FromLists(unixFlags: seq<UnixFlag>, windowsFlags: seq<WindowsFlag>)
      ensures Valid()
      ensures uflags == AddAllUnix({}, unixFlags)
      ensures wflags == AddAllWindows({}, windowsFlags)
    {
      uflags := {};
      wflags := {};
      new;
      var i := 0;
      while i < |unixFlags|
        invariant 0 <= i <= |unixFlags|
        invariant Valid()
        invariant uflags == AddAllUnix({}, unixFlags[..i])
        invariant wflags == {}
      {
        AddUnixFlag(unixFlags[i]);
        assert unixFlags[..i + 1][..i] == unixFlags[..i];
        i := i + 1;
      }
      assert unixFlags[..i] == unixFlags;
      var j := 0;
      while j < |windowsFlags|
        invariant 0 <= j <= |windowsFlags|
        invariant Valid()
        invariant uflags == AddAllUnix({}, unixFlags)
        invariant wflags == AddAllWindows({}, windowsFlags[..j])
      {
        AddWindowsFlag(windowsFlags[j]);
        assert windowsFlags[..j + 1][..j] == windowsFlags[..j];
        j := j + 1;
      }
      assert windowsFlags[..j] == windowsFlags;
    }

    /** add_flag(unix_flag): clears the excluded binding mode through
        remove_flag, which in turn re-enters add_flag; the recursion ends
        because the excluded bit is cleared before the re-entrant call. */
    method AddUnixFlag(f: UnixFlag)
      modifies this
      ensures uflags == AddUnixMask(old(uflags), f) && wflags == old(wflags)
      ensures old(Valid()) ==> Valid()
      decreases if (f == LoadLazy && 1 in uflags) || (f == LoadNow && 0 in uflags) then 2 else 0
    {
      if f == LoadLazy {
        if HasUnixFlag(LoadNow) {
          RemoveUnixFlag(LoadNow);
        }
      } else if f == LoadNow {
        if HasUnixFlag(LoadLazy) {
          RemoveUnixFlag(LoadLazy);
        }
      }
      uflags := uflags + UnixBits(f);
      StepKeepsModes(old(State()), AddUnix(f));
    }

    /** add_flag(windows_flag). */
    method AddWindowsFlag(f: WindowsFlag)
      modifies this
      ensures wflags == AddWindowsMask(old(wflags), f) && uflags == old(uflags)
      ensures old(Valid()) ==> Valid()
    {
      wflags := wflags + WindowsBits(f);
    }

    /** remove_flag(unix_flag): removing one binding mode adds the other. */
    method RemoveUnixFlag(f: UnixFlag)
      modifies this
      ensures uflags == RemoveUnixMask(old(uflags), f) && wflags == old(wflags)
      ensures old(Valid()) ==> Valid()
      decreases if f == LoadLazy || f == LoadNow then 1 else 0
    {
      if f == LoadLazy {
        uflags := uflags - UnixBits(f);
        AddUnixFlag(LoadNow);
      } else if f == LoadNow {
        uflags := uflags - UnixBits(f);
        AddUnixFlag(LoadLazy);
      }
      uflags := uflags - UnixBits(f);
      StepKeepsModes(old(State()), RemoveUnix(f));
    }

    /** remove_flag(windows_flag). */
    method RemoveWindowsFlag(f: WindowsFlag)
      modifies this
      ensures wflags == RemoveWindowsMask(old(wflags), f) && uflags == old(uflags)
      ensures old(Valid()) ==> Valid()
    {
      wflags := wflags - WindowsBits(f);
    }

    /** has_flag(unix_flag), `(uflags & flag) == flag`: always true for
        LOAD_LOCAL, whose value is 0; otherwise true exactly when the flag's
        bit is set. */
    function HasUnixFlag(f: UnixFlag): (r: bool)
      reads this
      ensures f == LoadLocal ==> r
      ensures f != LoadLocal ==> (r <==> UnixPosition(f).value in uflags)
    {
      UnixBits(f) <= uflags
    }

    /** has_flag(windows_flag): true exactly when the flag's bit is set. */
    function HasWindowsFlag(f: WindowsFlag): (r: bool)
      reads this
      ensures r <==> WindowsPosition(f) in wflags
    {
      WindowsBits(f) <= wflags
    }

    /** get_unix_flags: the mask handed to dlopen never asks for both binding
        modes, and holds no bit outside the Unix vocabulary. */
    function GetUnixFlags(): (r: Mask)
      reads this
      requires Valid()
      ensures AtMostOneMode(r) && r <= UnixVocabulary
    {
      uflags
    }

    /** get_windows_flags: the mask holds no bit outside the Windows vocabulary. */
    function GetWindowsFlags(): (r: Mask)
      reads this
      requires Valid()
      ensures r <= WindowsVocabulary
    {
      wflags
    }

    /** clear_unix_flags: back to lazy binding alone, whatever came before. */
    method ClearUnixFlags()
      modifies this
      ensures uflags == LazyBit && wflags == old(wflags)
      ensures old(Valid()) ==> Valid()
    {
      uflags := LazyBit;
    }

    /** clear_windows_flags: no Windows flag, whatever came before. */
    method ClearWindowsFlags()
      modifies this
      ensures wflags == {} && uflags == old(uflags)
      ensures old(Valid()) ==> Valid()
    {
      wflags := {};
    }
  }
}
