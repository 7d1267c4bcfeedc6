# RLL in Dafny

RLL is a header-only C++ library for loading shared libraries at run time. It
has two parts, and this project models both:

- `loader_flags` is a portable container of loader flags. It holds one
  32-bit mask in the dlopen vocabulary (Unix) and one in the LoadLibraryEx
  vocabulary (Windows). On the Unix side the lazy and immediate binding modes
  exclude each other: adding one removes the other, and removing one adds the
  other.
- `shared_library` is an object that holds at most one native library. It
  loads a library by path, looks up symbols in it, unloads it, and reports its
  path and native handle. Its behaviour comes from one of two backends,
  chosen when the library is compiled: dlopen/dlsym/dlclose on Unix, and
  LoadLibraryExA/GetProcAddress/FreeLibrary on Windows.

Modules:

- `Errors` (errors.dfy): the four RLL exceptions and their `what()` text.
- `Flags` (flags.dfy):
  - the flag enumerations, with each flag's bit;
  - the mask updates as functions, with lemmas about them;
  - the `LoaderFlags` class. Its `add_flag`/`remove_flag` for Unix flags are
    mutually recursive methods, as in the source.
- `Native` (native.dfy): the history of open and close requests that an
  object makes to the operating system's loader. It also states the
  ownership discipline a history must keep: open only when nothing is held,
  and close exactly the handle held.
- `UnixBackend` and `WindowsBackend` (unix_library.dfy, windows_library.dfy):
  the two `shared_library` classes. Each keeps a ghost history of its loader
  requests, and its invariant ties the handle and the path to that history.
- `Scenarios` (scenarios.dfy): the repository's test cases, plus load/unload
  round trips, as client methods whose postconditions are the expected values.

Masks are sets of bit positions: bit i stands for 2^i. So `a | b` is `a + b`,
`a & b` is `a * b`, and `a & ~b` is `a - b`. What the native loader answers is
given to each operation as a parameter: the handle, the error text, and the
address of a symbol.

## Model

| member | source | states |
|---|---|---|
| Errors.What | include/RLL/RLL.hpp:356-395 | The text of each exception: symbol_not_found gives the symbol name. library_already_loaded gives the path. library_not_loaded gives a fixed message. library_loading_error gives its error text, or "Unknown Error." when that text is empty, so it is never empty. |
| Flags.AddUnixMaskEffect | include/RLL/RLL.hpp:420-433 | Unix add_flag sets the flag's bit and clears the binding mode the flag excludes. It leaves every other bit unchanged. |
| Flags.RemoveUnixMaskEffect | include/RLL/RLL.hpp:437-447 | Unix remove_flag clears the flag's bit, and removing one binding mode sets the other. It leaves every other bit unchanged. |
| Flags.WindowsMaskEffect | include/RLL/RLL.hpp:435-448 | Windows add_flag sets exactly the flag's bit and remove_flag clears exactly that bit. Neither touches any other bit. |
| Flags.WindowsUpdatesIdempotent | include/RLL/RLL.hpp:435-448 | Adding a Windows flag twice is the same as adding it once, and likewise for removing. |
| Flags.WindowsAddRemoveRoundTrip | include/RLL/RLL.hpp:435-448 | Removing a Windows flag that was not set before adding it gives back the original mask. |
| Flags.WindowsUnionMembers | include/RLL/RLL.hpp:409-418 | A bit is in the union of a list of Windows flags exactly when some flag in the list stands for it. |
| Flags.AddAllWindowsIsUnion | include/RLL/RLL.hpp:409-418 | Adding Windows flags one at a time gives the starting mask united with all their bits. |
| Flags.AddAllUnixLaterModeWins | include/RLL/RLL.hpp:409-433 | Adding Unix flags one at a time: the binding mode that comes last in the list wins. If the list has no binding mode, both mode bits are as before. Every other bit is set exactly when it was set before or some flag in the list stands for it. |
| Flags.StepKeepsModes | include/RLL/RLL.hpp:420-458 | No single mutating call produces both binding modes. None leaves a mask with exactly one mode without a mode. None sets a bit outside the flag vocabulary. |
| Flags.RunKeepsModes | include/RLL/RLL.hpp:420-458 | The same holds for any sequence of mutating calls. |
| Flags.LoaderFlags.constructor | include/RLL/RLL.hpp:106 | The default container holds lazy binding alone and no Windows flag. |
| Flags.LoaderFlags.FromLists | include/RLL/RLL.hpp:409-418 | The list constructor starts from empty masks and adds the Unix flags in order, then the Windows flags in order. |
| Flags.LoaderFlags.AddUnixFlag | include/RLL/RLL.hpp:420-433 | The new Unix mask is the flattened add_flag result and the Windows mask is unchanged. The call keeps the container well-formed. |
| Flags.LoaderFlags.AddWindowsFlag | include/RLL/RLL.hpp:435 | Sets the flag's bit in the Windows mask and leaves the Unix mask unchanged. |
| Flags.LoaderFlags.RemoveUnixFlag | include/RLL/RLL.hpp:437-447 | The new Unix mask is the flattened remove_flag result. The call keeps the container well-formed. |
| Flags.LoaderFlags.RemoveWindowsFlag | include/RLL/RLL.hpp:448 | Clears the flag's bit in the Windows mask and leaves the Unix mask unchanged. |
| Flags.LoaderFlags.HasUnixFlag | include/RLL/RLL.hpp:450-452 | True exactly when the flag's bit is set. For LOAD_LOCAL, whose value is 0, it is always true. |
| Flags.LoaderFlags.HasWindowsFlag | include/RLL/RLL.hpp:453-455 | True exactly when the flag's bit is set. |
| Flags.LoaderFlags.GetUnixFlags | include/RLL/RLL.hpp:460 | The Unix mask never asks for both binding modes and holds only bits of the Unix vocabulary. |
| Flags.LoaderFlags.GetWindowsFlags | include/RLL/RLL.hpp:461 | The Windows mask holds only bits of the Windows vocabulary. |
| Flags.LoaderFlags.ClearUnixFlags | include/RLL/RLL.hpp:457 | Resets the Unix mask to lazy binding alone and leaves the Windows mask unchanged. |
| Flags.LoaderFlags.ClearWindowsFlags | include/RLL/RLL.hpp:458 | Resets the Windows mask to empty and leaves the Unix mask unchanged. |
| Native.DisciplinedSnoc | include/RLL/platform/sl_unix_impl.inl:12-39 | A history stays disciplined after one more event exactly when that event is permitted. |
| Native.NoOpenWhileHeld | include/RLL/platform/sl_unix_impl.inl:15-19 | In a disciplined history, a close comes between any two successful opens, so a held handle is never overwritten. |
| Native.NoDoubleClose | include/RLL/platform/sl_unix_impl.inl:35-38 | In a disciplined history, a successful open comes between any two closes, so no handle is released twice. |
| Native.ReleasedOnlyByClose | include/RLL/platform/sl_unix_impl.inl:35-38 | A held handle stops being held only through a close. |
| Native.AcquiredOnlyByOpen | include/RLL/platform/sl_unix_impl.inl:19-25 | A handle becomes held only through a successful open. |
| UnixBackend.SharedLibrary.constructor | include/RLL/platform/sl_unix_impl.inl:7-9 | A new object is not loaded, its handle is null and its path is empty. |
| UnixBackend.SharedLibrary.LoadWithMode | include/RLL/platform/sl_unix_impl.inl:12-26 | If a library is already loaded: library_already_loaded with the requested path, and nothing changes (dlopen is not called). If dlopen fails: library_loading_error with dlerror's text, still not loaded, path unchanged. On success: loaded, with dlopen's handle and the new path. |
| UnixBackend.SharedLibrary.LoadWithFlags | include/RLL/platform/sl_unix_impl.inl:28-30 | Loads with the container's Unix mask; the mode recorded for the dlopen call never holds both binding modes. |
| UnixBackend.SharedLibrary.Load | include/RLL/RLL.hpp:244 | Loads with a default container, that is with lazy binding. |
| UnixBackend.SharedLibrary.Unload | include/RLL/platform/sl_unix_impl.inl:32-39 | Closes the held handle exactly once, then the object is not loaded. On an unloaded object it changes nothing. The path is kept. |
| UnixBackend.SharedLibrary.IsLoaded | include/RLL/platform/sl_unix_impl.inl:42-44 | True exactly when the history leaves a handle held. |
| UnixBackend.SharedLibrary.GetSymbol | include/RLL/platform/sl_unix_impl.inl:47-64 | Not loaded gives library_not_loaded. When loaded, a non-empty dlerror text gives symbol_not_found with the name. Otherwise it returns dlsym's answer, even a null one. |
| UnixBackend.SharedLibrary.GetSymbolFast | include/RLL/platform/sl_unix_impl.inl:66-74 | Never fails: null when not loaded, dlsym's answer when loaded. |
| UnixBackend.SharedLibrary.HasSymbol | include/RLL/RLL.hpp:288 | True exactly when a library is loaded and the symbol's address is not null. |
| UnixBackend.SharedLibrary.GetPath | include/RLL/platform/sl_unix_impl.inl:77-79 | The path of the last library loaded, even after unload. |
| UnixBackend.SharedLibrary.GetPlatformHandle | include/RLL/platform/sl_unix_impl.inl:81-83 | The handle held, which is non-null exactly when loaded. |
| UnixBackend.SharedLibrary.GetPlatformSuffix | include/RLL/platform/sl_unix_impl.inl:85-93 | ".dylib" exactly on Apple, ".dll" exactly on Cygwin, and ".so" on every other Unix. |
| WindowsBackend.SharedLibrary.constructor | include/RLL/platform/sl_windows_impl.inl:7-9 | A new object is not loaded, its handle is null and its path is empty. |
| WindowsBackend.SharedLibrary.LoadWithMode | include/RLL/platform/sl_windows_impl.inl:12-26 | If a library is already loaded: library_already_loaded with the path already loaded, and nothing changes. If LoadLibraryExA fails: library_loading_error carrying the requested path, still not loaded, empty path. On success: loaded, with the handle and the new path. |
| WindowsBackend.SharedLibrary.LoadWithFlags | include/RLL/platform/sl_windows_impl.inl:28-30 | Loads with the container's Windows mask. |
| WindowsBackend.SharedLibrary.Load | include/RLL/RLL.hpp:244 | Loads with a default container, that is with no Windows flag. |
| WindowsBackend.SharedLibrary.Unload | include/RLL/platform/sl_windows_impl.inl:32-41 | Always ends not loaded, with a null handle and an empty path. Frees the held handle exactly once, and changes nothing on an unloaded object. |
| WindowsBackend.SharedLibrary.IsLoaded | include/RLL/platform/sl_windows_impl.inl:44-46 | True exactly when the history leaves a handle held. |
| WindowsBackend.SharedLibrary.GetSymbol | include/RLL/platform/sl_windows_impl.inl:49-58 | Not loaded gives library_not_loaded. When loaded, it returns GetProcAddress's answer. symbol_not_found is never raised. |
| WindowsBackend.SharedLibrary.GetSymbolFast | include/RLL/platform/sl_windows_impl.inl:60-68 | Never fails: null when not loaded, GetProcAddress's answer when loaded. |
| WindowsBackend.SharedLibrary.HasSymbol | include/RLL/RLL.hpp:288 | True exactly when a library is loaded and the symbol's address is not null. |
| WindowsBackend.SharedLibrary.GetPath | include/RLL/platform/sl_windows_impl.inl:70-72 | The path of the library held, or "" when none is held. |
| WindowsBackend.SharedLibrary.GetPlatformHandle | include/RLL/platform/sl_windows_impl.inl:75-77 | The handle held, which is non-null exactly when loaded. |
| WindowsBackend.SharedLibrary.GetPlatformSuffix | include/RLL/platform/sl_windows_impl.inl:79-81 | Always ".dll". |
| Scenarios.AllUnixFlagsMask | src/tests/src/flags_test.cpp:14-31 | Adding every Unix flag in the test's order gives every Unix bit except LOAD_LAZY, because LOAD_NOW comes later in the list. |
| Scenarios.AllWindowsFlagsMask | src/tests/src/flags_test.cpp:33-62 | Adding every Windows flag gives every Windows bit. |
| Scenarios.ConstructingFlags | src/tests/src/flags_test.cpp:64-75 | The expected masks of the default container and of the all-flags container. |
| Scenarios.AddingFlags | src/tests/src/flags_test.cpp:77-92 | The expected masks after the adds; adding LOAD_NOW displaces LOAD_LAZY. |
| Scenarios.RemovingFlags | src/tests/src/flags_test.cpp:94-105 | The expected masks after the removes; removing LOAD_NOW brings back LOAD_LAZY. |
| Scenarios.ClearingFlags | src/tests/src/flags_test.cpp:107-115 | Clearing gives lazy binding alone and no Windows flag, from any container. |
| Scenarios.OpeningALibrary | src/tests/src/shared_library_test.cpp:15-31 | Before load: not loaded, null handle. After a successful load: loaded, non-null handle, and the symbols that are found are present. |
| Scenarios.MissingSymbol | include/RLL/platform/sl_unix_impl.inl:47-64 | On Unix, a failed lookup that dlerror reports raises symbol_not_found with the exact name. |
| Scenarios.LookupsBeforeLoad | include/RLL/RLL.hpp:276-321 | On both backends, every lookup on an unloaded object gives library_not_loaded, null or false. |
| Scenarios.WindowsLoadUnload | include/RLL/platform/sl_windows_impl.inl:12-41 | On Windows, load followed by unload gives back a fresh object, whether the load succeeded or not. |
| Scenarios.UnixLoadUnload | include/RLL/platform/sl_unix_impl.inl:12-39 | On Unix, load followed by unload is not loaded and has a null handle, but keeps the path of a successful load. |
| Scenarios.Reload | include/RLL/platform/sl_unix_impl.inl:15-17 | A second load is refused on both backends and leaves the first library loaded. The error carries the requested path on Unix and the loaded path on Windows, whose refusal is at include/RLL/platform/sl_windows_impl.inl:15-17. |
| Scenarios.WindowsEmptyPathFailure | include/RLL/platform/sl_windows_impl.inl:21-23 | On Windows, a failed load of "" reports "Unknown Error.". |

## Left out

- Mutual exclusion: every backend operation takes a static mutex. Concurrency is not modelled, so each call is one atomic step.
- The native loader's behaviour is not modelled. The handles, dlerror texts and symbol addresses that dlopen, dlerror, dlsym, LoadLibraryExA and GetProcAddress return are given to each operation as parameters. What a symbol address points to (calling `add`, reading `abc`) is outside the model.
- The destructors are empty in both backends, so an object going out of scope does not release its library. The copy constructor is declared and not defined. Neither is modelled.
- Compile-time platform selection is modelled as two separate modules. The preprocessor choice of suffix on Unix is modelled as a `Target` parameter.
- Masks are sets of bit positions below 32, not unsigned ints. The numeric value of a mask is not modelled. Enumerator values are stated by bit position, for example 0x100 as position 8.
- UnixBackend.SharedLibrary.LoadWithMode: in C++, a null dlerror() result turned into a string is undefined behaviour. The model takes dlerror's text as an ordinary string.
- The flag parameter of `load(path, int)` may be any integer in C++. The model passes only masks, that is sets of positions below 32.
- src/example.cpp and src/tests/dummy_library/dumb_lib.cpp are clients and a test fixture, and are not part of this model.
- The documentation of `get_path` says it returns "" when no library is loaded. On Unix, `unload` does not clear the path, so the model follows the code: UnixBackend.SharedLibrary.GetPath gives the last loaded path even after unload.
- The documentation of `has_symbol` lists library_not_loaded as a possible exception. The code calls get_symbol_fast, which never raises, so HasSymbol never fails and is false on an unloaded object.
- The documentation of `get_symbol` says a missing symbol raises symbol_not_found. The Windows backend never raises it and returns GetProcAddress's answer, null or not; the model follows the code: WindowsBackend.SharedLibrary.GetSymbol never fails with symbol_not_found.
- The documentation of `load(path)` says a failed load raises library_not_loaded. Both backends raise library_loading_error; the model follows the code.
