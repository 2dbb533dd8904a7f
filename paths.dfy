/** The part of Python's `pathlib` that simple_transcriber.py relies on to
    build its work directory and transcript paths: `Path(s)` for a relative
    POSIX path string, `folder / name`, and `str(folder)`. */
module Paths {

  /** A relative path, as the sequence of its components (`Path.parts`). */
  datatype Path = Path(parts: seq<string>)

  /** A name that `Path` keeps as one component: not empty, not "." and
      without a separator. */
  predicate Component(name: string) {
    name != "" && name != "." && '/' !in name
  }

  /** A segment between separators becomes a component unless it is empty or ".". */
  function Keep(segment: string): (parts: seq<string>)
    requires '/' !in segment
    ensures forall k :: 0 <= k < |parts| ==> Component(parts[k])
    ensures Component(segment) <==> parts == [segment]
    ensures !Component(segment) <==> parts == []
  {
    if segment == "" || segment == "." then [] else [segment]
  }

  /** Splits `s` at every '/', `segment` being the part of the current
      segment already read, and keeps the components. */
  function Split(s: string, segment: string): (parts: seq<string>)
    requires '/' !in segment
    ensures forall k :: 0 <= k < |parts| ==> Component(parts[k])
    decreases |s|
  {
    if s == [] then Keep(segment)
    else if s[0] == '/' then Keep(segment) + Split(s[1..], "")
    else Split(s[1..], segment + [s[0]])
  }

  /** `Path(s)`: empty segments and "." segments disappear, so `Path("")`
      is the current directory, with no components. */
  function FromString(s: string): (p: Path)
    ensures forall k :: 0 <= k < |p.parts| ==> Component(p.parts[k])
  {
    Path(Split(s, ""))
  }

  /** `p / name`: the result lies inside `p`; a name that is one component
      adds exactly that component, and "" or "." adds nothing. */
  function Join(p: Path, name: string): (r: Path)
    ensures |p.parts| <= |r.parts| && r.parts[..|p.parts|] == p.parts
    ensures '/' !in name && Component(name) ==> r == Path(p.parts + [name])
    ensures '/' !in name && !Component(name) ==> r == p
  {
    if '/' in name then Path(p.parts + FromString(name).parts)
    else
      FromSingleComponent(name);
      Path(p.parts + FromString(name).parts)
  }

  /** The components separated by '/'. */
  function JoinWith(parts: seq<string>): string
    requires parts != []
  {
    if |parts| == 1 then parts[0] else parts[0] + "/" + JoinWith(parts[1..])
  }

  /** `str(p)`: the current directory prints as ".". Printing a path of
      proper components and reading it back gives the same path:
      `Path(str(p)) == p`. */
  function Render(p: Path): (r: string)
    ensures (forall k :: 0 <= k < |p.parts| ==> Component(p.parts[k])) ==> FromString(r) == p
  {
    if p.parts == [] then
      SplitWithoutSeparator(".", "");
      assert "" + "." == ".";
      "."
    else if forall k :: 0 <= k < |p.parts| ==> Component(p.parts[k]) then
      SplitJoinWith(p.parts);
      JoinWith(p.parts)
    else
      JoinWith(p.parts)
  }

  /** A string without separators is read as one segment. */
  lemma {:induction false} SplitWithoutSeparator(s: string, segment: string)
    requires '/' !in s && '/' !in segment
    ensures Split(s, segment) == Keep(segment + s)
    decreases |s|
  {
    if s == [] {
      assert segment + s == segment;
    } else {
      assert segment + s == (segment + [s[0]]) + s[1..];
      SplitWithoutSeparator(s[1..], segment + [s[0]]);
    }
  }

  /** A string that is a single component names a one-component path, and the
      empty string and "." name the current directory. */
  lemma FromSingleComponent(s: string)
    requires '/' !in s
    ensures Component(s) ==> FromString(s) == Path([s])
    ensures !Component(s) ==> FromString(s) == Path([])
  {
    SplitWithoutSeparator(s, "");
    assert "" + s == s;
  }

  /** Splitting at the first separator. */
  lemma {:induction false} SplitAtSeparator(a: string, rest: string, segment: string)
    requires '/' !in a && '/' !in segment
    ensures Split(a + "/" + rest, segment) == Keep(segment + a) + Split(rest, "")
    decreases |a|
  {
    var s := a + "/" + rest;
    if a == [] {
      assert s == "/" + rest && s[1..] == rest;
      assert segment + a == segment;
    } else {
      assert s[0] == a[0] && s[1..] == a[1..] + "/" + rest;
      assert segment + a == (segment + [a[0]]) + a[1..];
      SplitAtSeparator(a[1..], rest, segment + [a[0]]);
    }
  }

  lemma {:induction false} SplitJoinWith(parts: seq<string>)
    requires parts != []
    requires forall k :: 0 <= k < |parts| ==> Component(parts[k])
    ensures Split(JoinWith(parts), "") == parts
    decreases |parts|
  {
    if |parts| == 1 {
      SplitWithoutSeparator(parts[0], "");
      assert "" + parts[0] == parts[0];
    } else {
      SplitAtSeparator(parts[0], JoinWith(parts[1..]), "");
      assert "" + parts[0] == parts[0];
      SplitJoinWith(parts[1..]);
      assert parts == [parts[0]] + parts[1..];
    }
  }
}
