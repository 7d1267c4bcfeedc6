/** The Unix backend of shared_library (include/RLL/platform/sl_unix_impl.inl),
    the one compiled in when _WIN32 is not defined (include/RLL/RLL.hpp:22-26,
    404-407). dlopen, dlsym and dlerror are not modelled: each operation takes
    what they return as parameters. */
module UnixBackend {
  import opened Errors
  import opened Flags
  import opened Native

  /** The target the Unix backend is compiled for; only the library suffix
      depends on it. */
  datatype Target = Apple | Cygwin | OtherUnix

  class SharedLibrary {
    var libPath: string
    var libHandle: Address
    /** The opens and closes this object has asked of the native loader. */
    ghost var events: seq<LoaderEvent>

    /** The handle is the one the loader history leaves held, and the path is
        that of the last library opened: unload does not clear it. */
    ghost predicate Valid()
      reads this
    {
      Disciplined(events) && libHandle == Held(events) && libPath == LastOpenedPath(events)
    }

    /** A fresh object holds no library and has an empty path. */
    constructor ()
      ensures Valid() && events == []
      ensures !IsLoaded() && GetPlatformHandle() == Null && GetPath() == ""
    {
      libPath := "";
      libHandle := Null;
      events := [];
    }

    /** load(path, int flags): refused while a library is held, with the
        requested path and without calling dlopen; otherwise dlopen(path, mode)
        returns `handle`, and a null one raises a loading error carrying
        dlerror's text `dlerror`, leaving the path as it was. */
    method LoadWithMode(path: string, mode: Mask, handle: Address, dlerror: string)
      returns (outcome: Outcome)
      requires Valid()
      modifies this
      ensures Valid()
      ensures old(IsLoaded()) ==>
        outcome == Fail(LibraryAlreadyLoaded(path)) && unchanged(this)
      ensures !old(IsLoaded()) && handle == Null ==>
        outcome == Fail(LibraryLoadingError(dlerror)) && !IsLoaded() && libPath == old(libPath)
        && events == old(events) + [OpenFailed(path, mode)]
      ensures !old(IsLoaded()) && handle != Null ==>
        outcome == Pass && IsLoaded() && GetPlatformHandle() == handle && GetPath() == path
        && events == old(events) + [Opened(path, mode, handle)]
    {
      if libHandle != Null {
        return Fail(LibraryAlreadyLoaded(path));
      }
      libHandle := handle;
      DisciplinedSnoc(events, if handle == Null then OpenFailed(path, mode) else Opened(path, mode, handle));
      if libHandle == Null {
        events := events + [OpenFailed(path, mode)];
        return Fail(LibraryLoadingError(dlerror));
      }
      events := events + [Opened(path, mode, handle)];
      libPath := path;
      outcome := Pass;
    }

    /** load(path, flags): load with the container's Unix mask; the mode handed
        to dlopen never asks for both binding modes. */
    method LoadWithFlags(path: string, flags: LoaderFlags, handle: Address, dlerror: string)
      returns (outcome: Outcome)
      requires Valid() && flags.Valid()
      modifies this
      ensures Valid()
      ensures old(IsLoaded()) ==>
        outcome == Fail(LibraryAlreadyLoaded(path)) && unchanged(this)
      ensures !old(IsLoaded()) && handle == Null ==>
        outcome == Fail(LibraryLoadingError(dlerror)) && !IsLoaded() && libPath == old(libPath)
        && events == old(events) + [OpenFailed(path, flags.uflags)]
      ensures !old(IsLoaded()) && handle != Null ==>
        outcome == Pass && IsLoaded() && GetPlatformHandle() == handle && GetPath() == path
        && events == old(events) + [Opened(path, flags.uflags, handle)]
      ensures !old(IsLoaded()) ==> |events| > 0 && AtMostOneMode(events[|events| - 1].mode)
    {
      outcome := LoadWithMode(path, flags.GetUnixFlags(), handle, dlerror);
    }

    /** load(path): load with a default container, that is with lazy binding
        alone. */
    method Load(path: string, handle: Address, dlerror: string) returns (outcome: Outcome)
      requires Valid()
      modifies this
      ensures Valid()
      ensures old(IsLoaded()) ==>
        outcome == Fail(LibraryAlreadyLoaded(path)) && unchanged(this)
      ensures !old(IsLoaded()) && handle == Null ==>
        outcome == Fail(LibraryLoadingError(dlerror)) && !IsLoaded() && libPath == old(libPath)
        && events == old(events) + [OpenFailed(path, LazyBit)]
      ensures !old(IsLoaded()) && handle != Null ==>
        outcome == Pass && IsLoaded() && GetPlatformHandle() == handle && GetPath() == path
        && events == old(events) + [Opened(path, LazyBit, handle)]
    {
      var defaults := new LoaderFlags();
      outcome := LoadWithFlags(path, defaults, handle, dlerror);
    }

    /** unload: closes the held library once and forgets its handle, but keeps
        its path; does nothing when no library is held. */
    method Unload()
      requires Valid()
      modifies this
      ensures Valid()
      ensures old(IsLoaded()) ==>
        !IsLoaded() && events == old(events) + [Closed(old(libHandle))]
      ensures !old(IsLoaded()) ==> unchanged(this)
      ensures libPath == old(libPath)
    {
      if libHandle != Null {
        DisciplinedSnoc(events, Closed(libHandle));
        events := events + [Closed(libHandle)];
        libHandle := Null;
      }
    }

    /** is_loaded: whether the object holds a native library. */
    function IsLoaded(): (r: bool)
      reads this
      requires Valid()
      ensures r <==> Held(events) != Null
    {
      libHandle != Null
    }

    /** get_symbol(name), where dlsym answers `found` and dlerror, asked right
        after, answers `lookupError` (None for a null pointer): not loaded is an
        error; a non-empty error text is symbol_not_found(name); otherwise the
        raw answer, null or not, is returned. */
    method GetSymbol(name: string, found: Address, lookupError: Option<string>)
      returns (r: Result<Address>)
      requires Valid()
      ensures !IsLoaded() ==> r == Failure(LibraryNotLoaded)
      ensures IsLoaded() && lookupError.Some? && lookupError.value != "" ==>
        r == Failure(SymbolNotFound(name))
      ensures IsLoaded() && (lookupError.None? || lookupError.value == "") ==>
        r == Success(found)
    {
      if libHandle != Null {
        var result := found;
        if lookupError.Some? {
          if lookupError.value != "" {
            return Failure(SymbolNotFound(name));
          }
        }
        return Success(result);
      } else {
        return Failure(LibraryNotLoaded);
      }
    }

    /** get_symbol_fast(name), where dlsym answers `found`: never raises; null
        when no library is held, dlsym's raw answer otherwise. */
    method GetSymbolFast(name: string, found: Address) returns (r: Address)
      requires Valid()
      ensures !IsLoaded() ==> r == Null
      ensures IsLoaded() ==> r == found
    {
      if libHandle != Null {
        return found;
      } else {
        return Null;
      }
    }

    /** has_symbol(name): get_symbol_fast's answer is not null; false whenever
        no library is held, and never raises. */
    method HasSymbol(name: string, found: Address) returns (b: bool)
      requires Valid()
      ensures b <==> IsLoaded() && found != Null
    {
      var p := GetSymbolFast(name, found);
      b := p != Null;
    }

    /** get_path: the path of the last library loaded, even after unload; ""
        if none was ever loaded. */
    function GetPath(): (r: string)
      reads this
      requires Valid()
      ensures r == LastOpenedPath(events)
    {
      libPath
    }

    /** get_platform_handle: the native handle held, or null. */
    function GetPlatformHandle(): (r: Address)
      reads this
      requires Valid()
      ensures r == Held(events)
      ensures r != Null <==> IsLoaded()
    {
      libHandle
    }

    /** get_platform_suffix: ".dylib" on Apple, ".dll" on Cygwin, ".so" on
        every other Unix; no object is involved. */
    static function GetPlatformSuffix(target: Target): (r: string)
      ensures r == ".dylib" <==> target == Apple
      ensures r == ".dll" <==> target == Cygwin
      ensures target == OtherUnix ==> r == ".so"
    {
      match target
      case Apple => ".dylib"
      case Cygwin => ".dll"
      case OtherUnix => ".so"
    }
  }
}
