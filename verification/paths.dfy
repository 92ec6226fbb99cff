/**
 * Slash-separated asset paths: the `/` splitting that measures an asset's nesting level,
 * the `parent/name` joining that names a new asset, and the `prefix_name` task
 * descriptions.
 */
module Paths {

  /** `s.split("/")` as Python computes it: the pieces between separators, empty ones
      included, so there is always at least one. */
  function Split(s: string): (r: seq<string>)
    ensures |r| >= 1
  {
    if s == [] then [""]
    else
      var rest := Split(s[1..]);
      if s[0] == '/' then [""] + rest
      else [[s[0]] + rest[0]] + rest[1..]
  }

  /** `"/".join(parts)`. */
  function Join(parts: seq<string>): string
  {
    if parts == [] then ""
    else if |parts| == 1 then parts[0]
    else parts[0] + "/" + Join(parts[1..])
  }

  /** The number of separators in `s`. */
  function Slashes(s: string): nat
  {
    if s == [] then 0 else (if s[0] == '/' then 1 else 0) + Slashes(s[1..])
  }

  /** The nesting level of an asset id, `len(id.split("/"))`. */
  function Level(id: string): nat
  {
    |Split(id)|
  }

  /** The path of `name` inside `folder`, `f"{folder}/{name}"`. */
  function JoinPath(folder: string, name: string): string
  {
    folder + "/" + name
  }

  /** The description of the task exporting `name`, `f"{prefix}_{name}"`. */
  function Describe(prefix: string, name: string): string
  {
    prefix + "_" + name
  }

  /** Splitting and joining again gives back the id. */
  lemma {:induction false} JoinSplit(s: string)
    ensures Join(Split(s)) == s
  {
    if s != [] {
      var rest := Split(s[1..]);
      JoinSplit(s[1..]);
      assert Join(rest) == s[1..];
      var parts := Split(s);
      if s[0] == '/' {
        assert parts == [""] + rest;
        assert parts[1..] == rest;
        assert Join(parts) == "" + "/" + Join(rest);
      } else {
        assert parts == [[s[0]] + rest[0]] + rest[1..];
        if |rest| == 1 {
          assert Join(parts) == [s[0]] + rest[0];
          assert Join(rest) == rest[0];
        } else {
          assert parts[1..] == rest[1..];
          assert Join(parts) == [s[0]] + rest[0] + "/" + Join(rest[1..]);
          assert Join(rest) == rest[0] + "/" + Join(rest[1..]);
        }
      }
      assert s == [s[0]] + s[1..];
    }
  }

  /** No piece of a split holds a separator. */
  lemma {:induction false} SplitPiecesHaveNoSlash(s: string)
    ensures forall k :: 0 <= k < |Split(s)| ==> '/' !in Split(s)[k]
  {
    if s != [] {
      SplitPiecesHaveNoSlash(s[1..]);
      var rest := Split(s[1..]);
      if s[0] != '/' {
        forall k | 0 <= k < |Split(s)| ensures '/' !in Split(s)[k] {
          if k > 0 {
            assert Split(s)[k] == rest[k];
          }
        }
      }
    }
  }

  /** The level of an id is one more than the number of separators in it. */
  lemma {:induction false} LevelCountsSlashes(s: string)
    ensures Level(s) == Slashes(s) + 1
  {
    if s != [] {
      LevelCountsSlashes(s[1..]);
    }
  }

  lemma {:induction false} SlashesAppend(a: string, b: string)
    ensures Slashes(a + b) == Slashes(a) + Slashes(b)
  {
    if a == [] {
      assert a + b == b;
    } else {
      assert (a + b)[1..] == a[1..] + b;
      SlashesAppend(a[1..], b);
    }
  }

  /** Joining adds the levels: `parent/name` lies one level below `parent` exactly when
      `name` holds no separator. */
  lemma LevelOfJoin(folder: string, name: string)
    ensures Level(JoinPath(folder, name)) == Level(folder) + Level(name)
    ensures '/' !in name ==> Level(JoinPath(folder, name)) == Level(folder) + 1
  {
    SlashesAppend(folder + "/", name);
    SlashesAppend(folder, "/");
    LevelCountsSlashes(JoinPath(folder, name));
    LevelCountsSlashes(folder);
    LevelCountsSlashes(name);
    if '/' !in name {
      SlashFree(name);
    }
  }

  lemma {:induction false} SlashFree(s: string)
    requires '/' !in s
    ensures Slashes(s) == 0
  {
    if s != [] {
      assert s == [s[0]] + s[1..];
      SlashFree(s[1..]);
    }
  }
}
