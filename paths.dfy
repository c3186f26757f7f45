/**
  File paths as plain strings, with the three path operations the app uses:
  appending a component, taking the last component, and dropping the
  extension. Only the simple rule is modelled: components are separated by
  '/', and the extension is whatever follows the last '.' of the last
  component.
 */
module Paths {
  import opened Wrappers

  /** Position of the last occurrence of `c` in `s`, if there is one. */
  function LastIndexOf(s: string, c: char): (r: Option<nat>)
    ensures r.None? <==> c !in s
    ensures r.Some? ==> r.value < |s| && s[r.value] == c && c !in s[r.value + 1..]
  {
    if s == [] then None
    else if s[|s| - 1] == c then Some(|s| - 1)
    else
      assert s == s[..|s| - 1] + [s[|s| - 1]];
      LastIndexOf(s[..|s| - 1], c)
  }

  /** `lastPathComponent`: the longest suffix of `path` without a '/'. */
  function LastPathComponent(path: string): (c: string)
    ensures '/' !in c
    ensures |c| <= |path| && c == path[|path| - |c|..]
    ensures |c| == |path| || path[|path| - |c| - 1] == '/'
  {
    match LastIndexOf(path, '/')
    case None => path
    case Some(i) => path[i + 1..]
  }

  /** `deletingPathExtension` on a single component: drop the last '.' and what follows it. */
  function DeletingPathExtension(name: string): (stem: string)
    ensures |stem| <= |name| && stem == name[..|stem|]
    ensures '.' !in name ==> stem == name
    ensures '.' in name ==> |stem| < |name| && name[|stem|] == '.' && '.' !in name[|stem| + 1..]
  {
    match LastIndexOf(name, '.')
    case None => name
    case Some(i) => name[..i]
  }

  /**
    The display name of a file: its last component without the extension.
    Dropping the extension of the URL first and then taking the last component,
    as the app does, gives the same string under the simple rule, because the
    extension only ever sits in the last component.
   */
  function Stem(path: string): (stem: string)
    ensures '/' !in stem
    ensures var name := LastPathComponent(path);
              |stem| <= |name| && stem == name[..|stem|] && ('.' !in name ==> stem == name) &&
              ('.' in name ==> |stem| < |name| && name[|stem|] == '.' && '.' !in name[|stem| + 1..])
  {
    var name := LastPathComponent(path);
    var stem := DeletingPathExtension(name);
    stem
  }

  /** The number of '/' characters `appendingPathComponent` puts between `directory` and the component. */
  function SeparatorLength(directory: string): nat
  {
    if directory != [] && directory[|directory| - 1] == '/' then 0 else 1
  }

  /** `appendingPathComponent`: join with a '/' unless the directory already ends in one. */
  function AppendingPathComponent(directory: string, component: string): (path: string)
    ensures directory <= path
    ensures (directory != [] && directory[|directory| - 1] == '/') <==> |path| == |directory| + |component|
    ensures |path| == |directory| + SeparatorLength(directory) + |component|
    ensures |path| > |component| && path[|path| - |component| - 1] == '/'
    ensures path[|path| - |component|..] == component
  {
    if directory != [] && directory[|directory| - 1] == '/' then directory + component
    else directory + "/" + component
  }

  /** Appending a slash-free component makes it the path's last component. */
  lemma {:induction false} LastComponentOfAppended(directory: string, component: string)
    requires '/' !in component
    ensures LastPathComponent(AppendingPathComponent(directory, component)) == component
  {
  }

  /** The extension of `base.ext` is `ext`, when neither part holds a '.' after the base. */
  lemma {:induction false} ExtensionOfDottedName(base: string, extension: string)
    requires '.' !in extension
    ensures DeletingPathExtension(base + "." + extension) == base
  {
    var name := base + "." + extension;
    assert name[|base|] == '.' && name[|base| + 1..] == extension && name[..|base|] == base;
  }

  /** A file `base.ext` in any directory has stem `base`. */
  lemma {:induction false} StemOfFileWithExtension(directory: string, base: string, extension: string)
    requires '/' !in base && '/' !in extension
    requires '.' !in extension
    ensures Stem(AppendingPathComponent(directory, base + "." + extension)) == base
  {
    var name := base + "." + extension;
    assert '/' !in name by {
      forall i | 0 <= i < |name| ensures name[i] != '/' {
        if i < |base| { assert name[i] == base[i]; }
        else if i > |base| { assert name[i] == extension[i - |base| - 1]; }
      }
    }
    LastComponentOfAppended(directory, name);
    ExtensionOfDottedName(base, extension);
  }

  /** A file without any '.' in its name keeps its whole name as stem. */
  lemma {:induction false} StemOfFileWithoutExtension(directory: string, name: string)
    requires '/' !in name && '.' !in name
    ensures Stem(AppendingPathComponent(directory, name)) == name
  {
  }
}
