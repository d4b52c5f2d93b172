/** Mapping between the mirror's keys and doozerd paths (`key_path` and `folder`). */
module Paths {

  /** The key with every '_' replaced by '-' ('_' is not allowed in a doozerd path). */
  function Dashed(key: string): (r: string)
    ensures |r| == |key|
    ensures '_' !in r
  {
    if key == [] then []
    else (if key[0] == '_' then "-" else [key[0]]) + Dashed(key[1..])
  }

  /** `Dashed` changes each '_' into '-' and keeps every other character where it is. */
  lemma {:induction false} DashedAt(key: string, i: nat)
    requires i < |key|
    ensures Dashed(key)[i] == if key[i] == '_' then '-' else key[i]
  {
    if i > 0 {
      DashedAt(key[1..], i - 1);
    }
  }

  /** `path.split('/')[-1]`: the part of the path after its last '/', or all of it when there is none. */
  function KeyPath(path: string): (k: string)
    ensures '/' !in k
    ensures |k| <= |path|
  {
    if path == [] then []
    else if path[|path| - 1] == '/' then []
    else KeyPath(path[..|path| - 1]) + [path[|path| - 1]]
  }

  /** `KeyPath` is the longest suffix of the path without a '/': a suffix, preceded by '/' unless it is the whole path. */
  lemma {:induction false} KeyPathIsLastSegment(path: string)
    ensures var k := KeyPath(path);
      k == path[|path| - |k|..] && (|k| == |path| || path[|path| - |k| - 1] == '/')
  {
    if path != [] && path[|path| - 1] != '/' {
      var front := path[..|path| - 1];
      KeyPathIsLastSegment(front);
      var k := KeyPath(front);
      assert front[|front| - |k|..] + [path[|path| - 1]] == path[|path| - |k| - 1..];
    }
  }

  /** The backend path under which the namespace `root` keeps `key`. */
  function Folder(root: string, key: string): (p: string)
    ensures |p| == |root| + 1 + |key|
    ensures p[..|root| + 1] == root + "/"
    ensures '_' !in p[|root| + 1..]
  {
    assert (root + "/" + Dashed(key))[|root| + 1..] == Dashed(key);
    root + "/" + Dashed(key)
  }

  /** Whatever comes before the last '/', `KeyPath` returns a suffix of the segment after it. */
  lemma KeyPathWithin(prefix: string, segment: string)
    ensures var k := KeyPath(prefix + "/" + segment);
      |k| <= |segment| && k == segment[|segment| - |k|..]
  {
    var p := prefix + "/" + segment;
    var k := KeyPath(p);
    KeyPathIsLastSegment(p);
    assert forall j :: |p| - |k| <= j < |p| ==> p[j] == k[j - (|p| - |k|)];
    assert p[|prefix|] == '/';
    assert p[|p| - |k|..] == segment[|segment| - |k|..];
  }

  /** A segment without '/' is exactly what `KeyPath` gives back after a '/'. */
  lemma KeyPathAfterSlash(prefix: string, segment: string)
    requires '/' !in segment
    ensures KeyPath(prefix + "/" + segment) == segment
  {
    var p := prefix + "/" + segment;
    var k := KeyPath(p);
    KeyPathWithin(prefix, segment);
    KeyPathIsLastSegment(p);
    assert forall j :: |prefix| < j < |p| ==> p[j] == segment[j - |prefix| - 1];
  }

  /** `key_path(folder(key))` is the dashed key, so it is the key itself exactly when the key has no '_'. */
  lemma KeyPathOfFolder(root: string, key: string)
    requires '/' !in key
    ensures KeyPath(Folder(root, key)) == Dashed(key)
    ensures KeyPath(Folder(root, key)) == key <==> '_' !in key
  {
    var d := Dashed(key);
    assert '/' !in d by {
      forall i | 0 <= i < |d| ensures d[i] != '/' {
        DashedAt(key, i);
      }
    }
    KeyPathAfterSlash(root, d);
    if '_' in key {
      var i :| 0 <= i < |key| && key[i] == '_';
      DashedAt(key, i);
    } else {
      forall i | 0 <= i < |key| ensures d[i] == key[i] {
        DashedAt(key, i);
      }
    }
  }

  /** For any key, `key_path(folder(key))` gives the key back exactly when it holds neither '_' nor '/'. */
  lemma KeyPathOfFolderIsKey(root: string, key: string)
    ensures KeyPath(Folder(root, key)) == key <==> '_' !in key && '/' !in key
  {
    if '/' !in key {
      KeyPathOfFolder(root, key);
    } else {
      assert '/' !in KeyPath(Folder(root, key));
    }
  }

  /** Two different keys can share one backend path: the key-to-path mapping is not injective. */
  lemma FolderNotInjective(root: string)
    ensures "a_b" != "a-b"
    ensures Folder(root, "a_b") == Folder(root, "a-b")
  {
  }
}
