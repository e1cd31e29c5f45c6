/** The parts of `std::path::Path` the incremental isolator uses, on Unix path text. */
module UnixPath {
  import opened Text

  /** Trailing separators and `/.` components carry no name. */
  function TrimEnd(path: string): (r: string)
    ensures |r| <= |path|
  {
    if EndsInSeparator(path) then TrimEnd(path[..|path| - 1])
    else if EndsInDot(path) then TrimEnd(path[..|path| - 2])
    else path
  }

  predicate EndsInSeparator(path: string) {
    |path| >= 1 && path[|path| - 1] == '/'
  }

  predicate EndsInDot(path: string) {
    |path| >= 2 && path[|path| - 2] == '/' && path[|path| - 1] == '.'
  }

  /** The length of the text up to and including the last separator. */
  function DirLength(path: string): (n: nat)
    ensures n <= |path| && '/' !in path[n..]
    ensures n > 0 ==> path[n - 1] == '/'
  {
    if path == "" then 0
    else if path[|path| - 1] == '/' then |path|
    else
      var n := DirLength(path[..|path| - 1]);
      assert path[n..] == path[..|path| - 1][n..] + [path[|path| - 1]];
      n
  }

  /** `Path::file_name` */
  function FileName(path: string): (name: Option<string>) {
    var trimmed := TrimEnd(path);
    var name := trimmed[DirLength(trimmed)..];
    if name == "" || name == "." || name == ".." then None else Some(name)
  }

  /** `Path::parent` of a path that has a file name. */
  function Parent(path: string): (parent: string) {
    var trimmed := TrimEnd(path);
    var dir := trimmed[..DirLength(trimmed)];
    if dir != "" && TrimEnd(dir) == "" then "/" else TrimEnd(dir)
  }

  /** `Path::join` of a relative name. */
  function Join(dir: string, name: string): (path: string) {
    if dir == "" || EndsInSeparator(dir) then dir + name else dir + "/" + name
  }

  /** `Path::with_file_name` of a path that has a file name. */
  function WithFileName(path: string, name: string): (r: string) {
    Join(Parent(path), name)
  }

  /** A trimmed text ends in neither `/` nor `/.`, so trimming again changes nothing. */
  lemma {:induction false} TrimEndTwice(path: string)
    ensures TrimEnd(TrimEnd(path)) == TrimEnd(path)
    ensures !EndsInSeparator(TrimEnd(path))
    decreases |path|
  {
    if EndsInSeparator(path) {
      TrimEndTwice(path[..|path| - 1]);
    } else if EndsInDot(path) {
      TrimEndTwice(path[..|path| - 2]);
    }
  }

  lemma {:induction false} DirLengthOf(dir: string, name: string)
    requires '/' !in name && (dir == "" || EndsInSeparator(dir))
    ensures DirLength(dir + name) == |dir|
    decreases |name|
  {
    if name == "" {
      assert dir + name == dir;
    } else {
      var shorter := name[..|name| - 1];
      assert (dir + name)[..|dir + name| - 1] == dir + shorter;
      DirLengthOf(dir, shorter);
    }
  }

  /** Separators and `/.` components only. */
  predicate Nameless(tail: string) {
    || tail == ""
    || (tail[|tail| - 1] == '/' && Nameless(tail[..|tail| - 1]))
    || (|tail| >= 2 && tail[|tail| - 2..] == "/." && Nameless(tail[..|tail| - 2]))
  }

  lemma {:induction false} TrimNameless(path: string, tail: string)
    requires !EndsInSeparator(path) && !EndsInDot(path) && Nameless(tail)
    ensures TrimEnd(path + tail) == path
    decreases |tail|
  {
    var whole := path + tail;
    if tail == "" {
      assert whole == path;
    } else if tail[|tail| - 1] == '/' {
      assert whole[..|whole| - 1] == path + tail[..|tail| - 1];
      TrimNameless(path, tail[..|tail| - 1]);
    } else {
      assert tail[|tail| - 2..][0] == '/' && tail[|tail| - 2..][1] == '.';
      assert whole[..|whole| - 2] == path + tail[..|tail| - 2];
      TrimNameless(path, tail[..|tail| - 2]);
    }
  }

  /** The last component of a path is its file name, whatever separators and `/.` follow, unless it is `..`. */
  lemma FileNameIs(base: string, name: string, tail: string)
    requires '/' !in name && name != "" && name != "." && (base == "" || EndsInSeparator(base)) && Nameless(tail)
    ensures FileName(base + name + tail) == if name == ".." then None else Some(name)
  {
    var path := base + name;
    assert path[|path| - 1] == name[|name| - 1];
    assert |name| >= 2 ==> path[|path| - 2] == name[|name| - 2];
    TrimNameless(path, tail);
    DirLengthOf(base, name);
    assert path[|base|..] == name;
  }

  /** A name that trimming leaves alone. */
  predicate ProperName(name: string) {
    |name| > 2 && '/' !in name
  }

  lemma NameOf(base: string, name: string)
    requires ProperName(name) && (base == "" || EndsInSeparator(base))
    ensures FileName(base + name) == Some(name)
    ensures Parent(base + name) == if base != "" && TrimEnd(base) == "" then "/" else TrimEnd(base)
  {
    var path := base + name;
    assert path[|path| - 1] == name[|name| - 1] && path[|path| - 2] == name[|name| - 2];
    DirLengthOf(base, name);
    assert path[|base|..] == name && path[..|base|] == base;
  }

  /** Replacing the file name keeps the parent and sets the name. */
  lemma WithFileNameParts(path: string, name: string)
    requires ProperName(name)
    ensures FileName(WithFileName(path, name)) == Some(name)
    ensures Parent(WithFileName(path, name)) == Parent(path)
  {
    var trimmed := TrimEnd(path);
    var dir := trimmed[..DirLength(trimmed)];
    TrimEndTwice(dir);
    var parent := Parent(path);
    if parent == "" || parent == "/" {
      NameOf(parent, name);
      assert parent == "/" ==> parent[..0] == "";
    } else {
      NameOf(parent + "/", name);
      assert (parent + "/")[..|parent|] == parent;
    }
  }
}
