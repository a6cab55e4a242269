/** How `run` turns a declared path into the name it looks for, and how it
    finds that name in the fetched snapshot. */
module Matching {
  import opened Wrappers
  import opened Values

  /** A fetched remote parameter: its fully-qualified name and its value. */
  datatype Parameter = Parameter(name: string, value: Value)

  /** A declared variable's value: a bare path, or a `[path, default]` pair. */
  datatype Declared = Bare(path: string) | WithDefault(path: string, default: Value) {
    /** The `default_value` that `|name, (path, default_value)|` binds. */
    function DefaultOf(): Value {
      match this
      case Bare(_) => Nil
      case WithDefault(_, d) => d
    }
  }

  /** `s.sub(c, '')`: the first occurrence of `c`, wherever it is, is removed. */
  function RemoveFirst(s: string, c: char): (r: string)
    ensures c !in s ==> r == s
    ensures c in s ==> |r| == |s| - 1
  {
    if |s| == 0 then s
    else if s[0] == c then s[1..]
    else [s[0]] + RemoveFirst(s[1..], c)
  }

  /** Splitting at the first `c`, at index `k`: what precedes it and what
      follows it are kept, in order, and only that one `c` is gone. */
  lemma {:induction false} RemoveFirstAt(s: string, c: char, k: nat)
    requires k < |s| && s[k] == c && c !in s[..k]
    ensures RemoveFirst(s, c) == s[..k] + s[k + 1..]
  {
    if k > 0 {
      assert s[0] in s[..k];
      assert s[1..][..k - 1] == s[1..k];
      assert c !in s[1..k] by {
        assert forall x :: x in s[1..k] ==> x in s[..k];
      }
      RemoveFirstAt(s[1..], c, k - 1);
      assert s[..k] == [s[0]] + s[1..][..k - 1];
      assert s[1..][k - 1 + 1..] == s[k + 1..];
    }
  }

  /** `root_path[0..-2] if root_path&.end_with?('/')`, interpolated as ""
      when it is nil. */
  function BasePath(rootPath: Option<string>): (b: string)
    ensures rootPath.Some? && |rootPath.value| > 0 && rootPath.value[|rootPath.value| - 1] == '/'
      ==> b + "/" == rootPath.value
    ensures !(rootPath.Some? && |rootPath.value| > 0 && rootPath.value[|rootPath.value| - 1] == '/')
      ==> b == ""
  {
    match rootPath
    case Some(root) =>
      if |root| > 0 && root[|root| - 1] == '/' then root[..|root| - 1] else ""
    case None => ""
  }

  /** `"#{base_path}#{path}"` where `path = "/#{path.sub('/', '')}"`. */
  function QualifiedPath(rootPath: Option<string>, path: string): (q: string)
    // the base path, then exactly one separator, then the declared path less one `/`
    ensures |q| == |BasePath(rootPath)| + 1 + |path| - (if '/' in path then 1 else 0)
    ensures q[..|BasePath(rootPath)|] == BasePath(rootPath) && q[|BasePath(rootPath)|] == '/'
  {
    BasePath(rootPath) + "/" + RemoveFirst(path, '/')
  }

  /** `detect { |p| p.name == name }`: the first parameter with that name. */
  function Detect(snapshot: seq<Parameter>, name: string): (r: Option<Parameter>)
    ensures r.None? <==> forall i :: 0 <= i < |snapshot| ==> snapshot[i].name != name
    ensures r.Some? ==> exists i :: 0 <= i < |snapshot| && snapshot[i] == r.value && r.value.name == name
                                   && forall j :: 0 <= j < i ==> snapshot[j].name != name
  {
    if |snapshot| == 0 then None
    else if snapshot[0].name == name then Some(snapshot[0])
    else
      var r := Detect(snapshot[1..], name);
      assert r.Some? ==> exists i :: 0 <= i < |snapshot| && snapshot[i] == r.value && r.value.name == name
                                     && forall j :: 0 <= j < i ==> snapshot[j].name != name by {
        if r.Some? {
          var k :| 0 <= k < |snapshot[1..]| && snapshot[1..][k] == r.value && r.value.name == name
                   && forall j :: 0 <= j < k ==> snapshot[1..][j].name != name;
          assert snapshot[k + 1] == r.value;
          assert forall j :: 0 <= j < k + 1 ==> snapshot[j].name != name by {
            forall j | 0 <= j < k + 1 ensures snapshot[j].name != name {
              if j > 0 { assert snapshot[j] == snapshot[1..][j - 1]; }
            }
          }
        }
      }
      r
  }

  /** `detect { ... }&.value`: the matched value, or `nil` when none matches. */
  function LookupValue(snapshot: seq<Parameter>, name: string): (v: Value)
    ensures (forall i :: 0 <= i < |snapshot| ==> snapshot[i].name != name) ==> v == Nil
    ensures forall i :: 0 <= i < |snapshot| && snapshot[i].name == name
                        && (forall j :: 0 <= j < i ==> snapshot[j].name != name)
                        ==> v == snapshot[i].value
  {
    match Detect(snapshot, name)
    case Some(p) => p.value
    case None => Nil
  }

  /** Only the first `/` of the declared path is dropped, wherever it is;
      one `/` is then put in front. */
  lemma QualifiedPathStripsOneSeparator(rootPath: Option<string>, rest: string)
    ensures QualifiedPath(rootPath, "/" + rest) == BasePath(rootPath) + "/" + rest
  {
    RemoveFirstAt("/" + rest, '/', 0);
    assert ("/" + rest)[1..] == rest;
  }

  /** A path without any `/` is qualified as it stands. */
  lemma QualifiedPathWithoutSeparator(rootPath: Option<string>, path: string)
    requires '/' !in path
    ensures QualifiedPath(rootPath, path) == BasePath(rootPath) + "/" + path
  {
  }

  /** A root path without a trailing `/` contributes nothing to the name
      looked up: `/root` with `/path/to/variable` looks up
      `/path/to/variable`. */
  lemma QualifiedPathUnslashedRoot(root: string, rest: string)
    requires |root| == 0 || root[|root| - 1] != '/'
    ensures QualifiedPath(Some(root), "/" + rest) == "/" + rest
  {
    QualifiedPathStripsOneSeparator(Some(root), rest);
  }

  /** A root path with a trailing `/` is used without it: `/root/` with
      `/path/var` looks up `/root/path/var`. */
  lemma QualifiedPathSlashedRoot(root: string, rest: string)
    ensures QualifiedPath(Some(root + "/"), "/" + rest) == root + "/" + rest
  {
    assert (root + "/")[..|root + "/"| - 1] == root;
    QualifiedPathStripsOneSeparator(Some(root + "/"), rest);
  }

  /** The `/` removed is the first one anywhere, not a leading one: `/root/`
      with `path/var` looks up `/root/pathvar`. */
  lemma QualifiedPathInnerSeparator(root: string, head: string, tail: string)
    requires '/' !in head
    ensures QualifiedPath(Some(root + "/"), head + "/" + tail) == root + "/" + head + tail
  {
    var s := head + "/" + tail;
    assert s[..|head|] == head && s[|head|] == '/' && s[|head| + 1..] == tail;
    RemoveFirstAt(s, '/', |head|);
    assert (root + "/")[..|root + "/"| - 1] == root;
  }
}
