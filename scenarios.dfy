/** Clients of the model that replay the repository's own test cases
    (src/tests/src/flags_test.cpp, src/tests/src/shared_library_test.cpp) and
    the load/unload round trip of the header's usage example, where unload
    clears the object and closes the library (include/RLL/RLL.hpp:204). Each
    returns what the test inspects, and its postcondition is the expected
    value, proved from the contracts of the operations it calls. */
module Scenarios {
  import opened Errors
  import opened Flags
  import opened Native
  import Unix = UnixBackend
  import Windows = WindowsBackend

  const AllUnixFlags: seq<UnixFlag> :=
    [LoadLazy, LoadNow, LoadLocal, LoadGlobal, LoadDeepBind, LoadNoDelete, LoadNoLoad]

  const AllWindowsFlags: seq<WindowsFlag> :=
    [DontResolveReferences, IgnoreCodeAuthzLevel, RequireSignedTarget, RequireCurrentDirSafe,
     LoadAsDatafile, LoadAsExclusiveDatafile, LoadAsImageResource,
     SearchApplicationDir, SearchDefaultDirs, SearchDllLoadDir, SearchSystem32Dir,
     SearchUserDirs, SearchWithAlteredPath]

  /** Every Unix flag but LOAD_LAZY, which LOAD_NOW, later in the list,
      displaces: 0x110E. */
  lemma AllUnixFlagsMask()
    ensures AddAllUnix({}, AllUnixFlags) == UnixVocabulary - LazyBit
  {
    AddAllUnixLaterModeWins({}, AllUnixFlags);
    var fs := AllUnixFlags;
    assert UnixUnion(fs[..1]) == {0} by { assert fs[..1][..0] == []; }
    assert UnixUnion(fs[..2]) == {0, 1} by { assert fs[..2][..1] == fs[..1]; }
    assert UnixUnion(fs[..3]) == {0, 1} by { assert fs[..3][..2] == fs[..2]; }
    assert UnixUnion(fs[..4]) == {0, 1, 8} by { assert fs[..4][..3] == fs[..3]; }
    assert UnixUnion(fs[..5]) == {0, 1, 3, 8} by { assert fs[..5][..4] == fs[..4]; }
    assert UnixUnion(fs[..6]) == {0, 1, 3, 8, 12} by { assert fs[..6][..5] == fs[..5]; }
    assert UnixUnion(fs) == UnixVocabulary by { assert fs[..6] == fs[..|fs| - 1]; }
    assert LastMode(fs) == Some(LoadNow) by {
      assert fs[..2][..1] == fs[..1];
      assert LastMode(fs[..2]) == Some(LoadNow);
      assert LastMode(fs[..3]) == Some(LoadNow) by { assert fs[..3][..2] == fs[..2]; }
      assert LastMode(fs[..4]) == Some(LoadNow) by { assert fs[..4][..3] == fs[..3]; }
      assert LastMode(fs[..5]) == Some(LoadNow) by { assert fs[..5][..4] == fs[..4]; }
      assert LastMode(fs[..6]) == Some(LoadNow) by { assert fs[..6][..5] == fs[..5]; }
      assert fs[..6] == fs[..|fs| - 1];
    }
    var r := AddAllUnix({}, fs);
    assert 1 in r && 0 !in r;
    assert r - ModeBits == UnixVocabulary - ModeBits;
    forall b: BitIndex
      ensures b in r <==> b in UnixVocabulary - LazyBit
    {
      if b != 0 && b != 1 {
        assert b in r <==> b in r - ModeBits;
      }
    }
  }

  /** Every Windows flag: 0x3FFB. */
  lemma AllWindowsFlagsMask()
    ensures AddAllWindows({}, AllWindowsFlags) == WindowsVocabulary
  {
    AddAllWindowsIsUnion({}, AllWindowsFlags);
    var ws := AllWindowsFlags;
    forall b: BitIndex
      ensures b in WindowsUnion(ws) <==> b in WindowsVocabulary
    {
      WindowsUnionMembers(ws, b);
      assert forall i :: 0 <= i < |ws| ==> WindowsPosition(ws[i]) in WindowsVocabulary;
      if b in WindowsVocabulary {
        assert exists i :: 0 <= i < |ws| && WindowsPosition(ws[i]) == b by {
          assert WindowsPosition(ws[0]) == 0 && WindowsPosition(ws[1]) == 4;
          assert WindowsPosition(ws[2]) == 7 && WindowsPosition(ws[3]) == 13;
          assert WindowsPosition(ws[4]) == 1 && WindowsPosition(ws[5]) == 6;
          assert WindowsPosition(ws[6]) == 5 && WindowsPosition(ws[7]) == 9;
          assert WindowsPosition(ws[8]) == 12 && WindowsPosition(ws[9]) == 8;
          assert WindowsPosition(ws[10]) == 11 && WindowsPosition(ws[11]) == 10;
          assert WindowsPosition(ws[12]) == 3;
        }
      }
    }
  }

  /** "Constructing loader_flags works": the default container is {LAZY} and
      {}; the one built from every flag is every Unix flag but LAZY and every
      Windows flag. */
  method ConstructingFlags() returns (defaultUnix: Mask, defaultWindows: Mask, allUnix: Mask, allWindows: Mask)
    ensures defaultUnix == LazyBit && defaultWindows == {}
    ensures allUnix == UnixVocabulary - LazyBit && allWindows == WindowsVocabulary
  {
    var d := new LoaderFlags();
    defaultUnix, defaultWindows := d.GetUnixFlags(), d.GetWindowsFlags();
    var all := new LoaderFlags.FromLists(AllUnixFlags, AllWindowsFlags);
    AllUnixFlagsMask();
    AllWindowsFlagsMask();
    allUnix, allWindows := all.GetUnixFlags(), all.GetWindowsFlags();
  }

  /** "Adding flags works": {LAZY, LOCAL} plus GLOBAL is LAZY|GLOBAL, plus
      LOAD_AS_DATAFILE on the Windows side; adding NOW then displaces LAZY. */
  method AddingFlags() returns (unix1: Mask, windows1: Mask, unix2: Mask)
    ensures unix1 == UnixBits(LoadLazy) + UnixBits(LoadGlobal) + UnixBits(LoadLocal)
    ensures windows1 == WindowsBits(LoadAsDatafile)
    ensures unix2 == UnixBits(LoadNow) + UnixBits(LoadGlobal) + UnixBits(LoadLocal)
  {
    var flags := new LoaderFlags.FromLists([LoadLazy, LoadLocal], []);
    assert flags.uflags == {0};
    flags.AddUnixFlag(LoadGlobal);
    flags.AddWindowsFlag(LoadAsDatafile);
    unix1, windows1 := flags.GetUnixFlags(), flags.GetWindowsFlags();
    flags.AddUnixFlag(LoadNow);
    unix2 := flags.GetUnixFlags();
  }

  /** "Removing flags works": removing GLOBAL and LOAD_AS_DATAFILE clears just
      those bits; adding GLOBAL back and removing NOW brings back LAZY. */
  method RemovingFlags() returns (unix1: Mask, windows1: Mask, unix2: Mask)
    ensures unix1 == UnixVocabulary - (UnixBits(LoadGlobal) + LazyBit)
    ensures windows1 == WindowsVocabulary - WindowsBits(LoadAsDatafile)
    ensures unix2 == UnixVocabulary - NowBit
  {
    var flags := new LoaderFlags.FromLists(AllUnixFlags, AllWindowsFlags);
    AllUnixFlagsMask();
    AllWindowsFlagsMask();
    flags.RemoveUnixFlag(LoadGlobal);
    flags.RemoveWindowsFlag(LoadAsDatafile);
    unix1, windows1 := flags.GetUnixFlags(), flags.GetWindowsFlags();
    flags.AddUnixFlag(LoadGlobal);
    flags.RemoveUnixFlag(LoadNow);
    unix2 := flags.GetUnixFlags();
  }

  /** "Clearing flags works": clearing gives {LAZY} and {} from any container. */
  method ClearingFlags(unixFlags: seq<UnixFlag>, windowsFlags: seq<WindowsFlag>)
    returns (unix: Mask, windows: Mask)
    ensures unix == LazyBit && windows == {}
  {
    var flags := new LoaderFlags.FromLists(unixFlags, windowsFlags);
    flags.ClearUnixFlags();
    unix := flags.GetUnixFlags();
    flags.ClearWindowsFlags();
    windows := flags.GetWindowsFlags();
  }

  /** "Opening and using a shared library works", on the Unix backend: a fresh
      object is not loaded and has a null handle; once dlopen succeeds it is
      loaded with a non-null handle, and symbols that dlsym finds are present. */
  method OpeningALibrary(path: string, handle: Address, addAddress: Address, abcAddress: Address)
    returns (loadedBefore: bool, handleBefore: Address, outcome: Outcome,
             loadedAfter: bool, handleAfter: Address, hasAdd: bool, hasAbc: bool)
    requires handle != Null && addAddress != Null && abcAddress != Null
    ensures !loadedBefore && handleBefore == Null
    ensures outcome == Pass && loadedAfter && handleAfter != Null
    ensures hasAdd && hasAbc
  {
    var library := new Unix.SharedLibrary();
    loadedBefore, handleBefore := library.IsLoaded(), library.GetPlatformHandle();
    outcome := library.Load(path, handle, "");
    loadedAfter, handleAfter := library.IsLoaded(), library.GetPlatformHandle();
    hasAdd := library.HasSymbol("add", addAddress);
    hasAbc := library.HasSymbol("abc", abcAddress);
  }

  /** On the Unix backend, a symbol dlsym does not know, with dlerror reporting
      it, raises symbol_not_found with that exact name. */
  method MissingSymbol(path: string, handle: Address, name: string, lookupError: string)
    returns (r: Result<Address>)
    requires handle != Null && lookupError != ""
    ensures r == Failure(SymbolNotFound(name))
  {
    var library := new Unix.SharedLibrary();
    var _ := library.Load(path, handle, "");
    r := library.GetSymbol(name, Null, Some(lookupError));
  }

  /** On either backend, every lookup on a fresh object: the checked form
      raises library_not_loaded, the fast form gives null, has_symbol false. */
  method LookupsBeforeLoad(name: string, found: Address)
    returns (unixChecked: Result<Address>, unixFast: Address, unixHas: bool,
             windowsChecked: Result<Address>, windowsFast: Address, windowsHas: bool)
    ensures unixChecked == Failure(LibraryNotLoaded) && unixFast == Null && !unixHas
    ensures windowsChecked == Failure(LibraryNotLoaded) && windowsFast == Null && !windowsHas
  {
    var u := new Unix.SharedLibrary();
    unixChecked := u.GetSymbol(name, found, None);
    unixFast := u.GetSymbolFast(name, found);
    unixHas := u.HasSymbol(name, found);
    var w := new Windows.SharedLibrary();
    windowsChecked := w.GetSymbol(name, found);
    windowsFast := w.GetSymbolFast(name, found);
    windowsHas := w.HasSymbol(name, found);
  }

  /** Windows: load then unload gives back a fresh object (not loaded, null
      handle, empty path), whether the load succeeded or not, and a second
      unload changes nothing. */
  method WindowsLoadUnload(path: string, handle: Address)
    returns (loaded: bool, currentPath: string, currentHandle: Address)
    ensures !loaded && currentPath == "" && currentHandle == Null
  {
    var library := new Windows.SharedLibrary();
    var _ := library.Load(path, handle);
    library.Unload();
    library.Unload();
    loaded, currentPath, currentHandle := library.IsLoaded(), library.GetPath(), library.GetPlatformHandle();
  }

  /** Unix: load then unload leaves the object not loaded with a null handle,
      but get_path still gives the path of the library that was loaded. */
  method UnixLoadUnload(path: string, handle: Address)
    returns (loaded: bool, currentPath: string, currentHandle: Address)
    ensures !loaded && currentHandle == Null
    ensures currentPath == if handle != Null then path else ""
  {
    var library := new Unix.SharedLibrary();
    var _ := library.Load(path, handle, "");
    library.Unload();
    loaded, currentPath, currentHandle := library.IsLoaded(), library.GetPath(), library.GetPlatformHandle();
  }

  /** A second load into a loaded object is refused and leaves the first load
      in place; the error carries the requested path on Unix and the path
      already loaded on Windows. */
  method Reload(first: string, second: string, handle1: Address, handle2: Address)
    returns (unixError: Outcome, unixPath: string, unixLoaded: bool,
             windowsError: Outcome, windowsPath: string, windowsLoaded: bool)
    requires handle1 != Null
    ensures unixError == Fail(LibraryAlreadyLoaded(second)) && unixPath == first && unixLoaded
    ensures windowsError == Fail(LibraryAlreadyLoaded(first)) && windowsPath == first && windowsLoaded
  {
    var u := new Unix.SharedLibrary();
    var _ := u.Load(first, handle1, "");
    unixError := u.Load(second, handle2, "");
    unixPath, unixLoaded := u.GetPath(), u.IsLoaded();
    var w := new Windows.SharedLibrary();
    var _ := w.Load(first, handle1);
    windowsError := w.Load(second, handle2);
    windowsPath, windowsLoaded := w.GetPath(), w.IsLoaded();
  }

  /** Windows: a failed load of the empty path reports "Unknown Error.". */
  method WindowsEmptyPathFailure() returns (message: string)
    ensures message == UnknownErrorMessage
  {
    var library := new Windows.SharedLibrary();
    var outcome := library.Load("", Null);
    message := What(outcome.error);
  }
}
