/** The Windows backend of shared_library
    (include/RLL/platform/sl_windows_impl.inl), the one compiled in when _WIN32
    is defined (include/RLL/RLL.hpp:22-26, 398-403). LoadLibraryExA and
    GetProcAddress are not modelled: each operation takes what they return as
    parameters. */
module WindowsBackend {
  import opened Errors
  import opened Flags
  import opened Native

  class SharedLibrary {
    var libPath: string
    var libHandle: Address
    /** The opens and closes this object has asked of the native loader. */
    ghost var events: seq<LoaderEvent>

    /** The handle is the one the loader history leaves held, and the path is
        that of the library held: "" whenever none is held. */
    ghost predicate Valid()
      reads this
    {
      Disciplined(events) && libHandle == Held(events) && libPath == HeldPath(events)
    }

    /** A fresh object holds no library and has an empty path. */
    constructor ()
      ensures Valid() && events == []
      ensures !IsLoaded() && GetPlatformHandle() == Null && GetPath() == ""
    {
      libPath := "";
      libHandle := Null;
      events := [];
    }

    /** load(path, int flags): refused while a library is held, with the path
        of the library already held and without calling LoadLibraryExA;
        otherwise LoadLibraryExA(path, 0, mode) returns `handle`, and a null one
        raises a loading error carrying the requested path. */
    method LoadWithMode(path: string, mode: Mask, handle: Address) returns (outcome: Outcome)
      requires Valid()
      modifies this
      ensures Valid()
      ensures old(IsLoaded()) ==>
        outcome == Fail(LibraryAlreadyLoaded(old(GetPath()))) && unchanged(this)
      ensures !old(IsLoaded()) && handle == Null ==>
        outcome == Fail(LibraryLoadingError(path)) && !IsLoaded() && GetPath() == ""
        && events == old(events) + [OpenFailed(path, mode)]
      ensures !old(IsLoaded()) && handle != Null ==>
        outcome == Pass && IsLoaded() && GetPlatformHandle() == handle && GetPath() == path
        && events == old(events) + [Opened(path, mode, handle)]
    {
      if libHandle != Null {
        return Fail(LibraryAlreadyLoaded(libPath));
      }
      libHandle := handle;
      DisciplinedSnoc(events, if handle == Null then OpenFailed(path, mode) else Opened(path, mode, handle));
      if libHandle == Null {
        events := events + [OpenFailed(path, mode)];
        return Fail(LibraryLoadingError(path));
      }
      events := events + [Opened(path, mode, handle)];
      libPath := path;
      outcome := Pass;
    }

    /** load(path, flags): load with the container's Windows mask. */
    method LoadWithFlags(path: string, flags: LoaderFlags, handle: Address)
      returns (outcome: Outcome)
      requires Valid() && flags.Valid()
      modifies this
      ensures Valid()
      ensures old(IsLoaded()) ==>
        outcome == Fail(LibraryAlreadyLoaded(old(GetPath()))) && unchanged(this)
      ensures !old(IsLoaded()) && handle == Null ==>
        outcome == Fail(LibraryLoadingError(path)) && !IsLoaded() && GetPath() == ""
        && events == old(events) + [OpenFailed(path, flags.wflags)]
      ensures !old(IsLoaded()) && handle != Null ==>
        outcome == Pass && IsLoaded() && GetPlatformHandle() == handle && GetPath() == path
        && events == old(events) + [Opened(path, flags.wflags, handle)]
    {
      outcome := LoadWithMode(path, flags.GetWindowsFlags(), handle);
    }

    /** load(path): load with a default container, that is with no Windows
        flag. */
    method Load(path: string, handle: Address) returns (outcome: Outcome)
      requires Valid()
      modifies this
      ensures Valid()
      ensures old(IsLoaded()) ==>
        outcome == Fail(LibraryAlreadyLoaded(old(GetPath()))) && unchanged(this)
      ensures !old(IsLoaded()) && handle == Null ==>
        outcome == Fail(LibraryLoadingError(path)) && !IsLoaded() && GetPath() == ""
        && events == old(events) + [OpenFailed(path, {})]
      ensures !old(IsLoaded()) && handle != Null ==>
        outcome == Pass && IsLoaded() && GetPlatformHandle() == handle && GetPath() == path
        && events == old(events) + [Opened(path, {}, handle)]
    {
      var defaults := new LoaderFlags();
      outcome := LoadWithFlags(path, defaults, handle);
    }

    /** unload: frees the held library once and forgets both its handle and its
        path; on an object that holds none it changes nothing. */
    method Unload()
      requires Valid()
      modifies this
      ensures Valid()
      ensures !IsLoaded() && GetPlatformHandle() == Null && GetPath() == ""
      ensures old(IsLoaded()) ==> events == old(events) + [Closed(old(libHandle))]
      ensures !old(IsLoaded()) ==> unchanged(this)
    {
      if libHandle != Null {
        DisciplinedSnoc(events, Closed(libHandle));
        events := events + [Closed(libHandle)];
        libHandle := Null;
      }
      libPath := "";
    }

    /** is_loaded: whether the object holds a native library. */
    function IsLoaded(): (r: bool)
      reads this
      requires Valid()
      ensures r <==> Held(events) != Null
    {
      libHandle != Null
    }

    /** get_symbol(name), where GetProcAddress returns `found`: not loaded is an
        error; otherwise the raw answer, null or not, is returned, and
        symbol_not_found is never raised. */
    method GetSymbol(name: string, found: Address) returns (r: Result<Address>)
      requires Valid()
      ensures !IsLoaded() ==> r == Failure(LibraryNotLoaded)
      ensures IsLoaded() ==> r == Success(found)
      ensures r.Failure? ==> !r.error.SymbolNotFound?
    {
      if libHandle != Null {
        return Success(found);
      } else {
        return Failure(LibraryNotLoaded);
      }
    }

    /** get_symbol_fast(name), where GetProcAddress returns `found`: never
        raises; null when no library is held, the raw answer otherwise. */
    method GetSymbolFast(name: string, found: Address) returns (r: Address)
      requires Valid()
      ensures !IsLoaded() ==> r == Null
      ensures IsLoaded() ==> r == found
    {
      if libHandle != Null {
        return found;
      } else {
        return Null;
      }
    }

    /** has_symbol(name): get_symbol_fast's answer is not null; false whenever
        no library is held, and never raises. */
    method HasSymbol(name: string, found: Address) returns (b: bool)
      requires Valid()
      ensures b <==> IsLoaded() && found != Null
    {
      var p := GetSymbolFast(name, found);
      b := p != Null;
    }

    /** get_path: the path of the library held; "" when none is held. */
    function GetPath(): (r: string)
      reads this
      requires Valid()
      ensures r == HeldPath(events)
      ensures !IsLoaded() ==> r == ""
    {
      libPath
    }

    /** get_platform_handle: the native handle held, or null. */
    function GetPlatformHandle(): (r: Address)
      reads this
      requires Valid()
      ensures r == Held(events)
      ensures r != Null <==> IsLoaded()
    {
      libHandle
    }

    /** get_platform_suffix: always ".dll"; no object is involved. */
    static function GetPlatformSuffix(): (r: string)
      ensures r == ".dll"
    {
      ".dll"
    }
  }
}
