/** The on-disk layout both handlers rely on:
    `<files root>/<model dir>/<version>/<file name>`, the directory name the
    inference handler derives from a model id, and the "is it there"
    test (the file exists and has exactly the expected length). */
module Paths {
  import opened Common

  /** The app's files directory, seen as a map from absolute path to the
      length in bytes of the file there. */
  type FileSystem = map<string, int>

  const DefaultVersion := "main"
  const VendorPart := "google-"

  /** `pat` occurs in `s` starting at index `i`. */
  predicate OccursAt(s: string, pat: string, i: nat) {
    i + |pat| <= |s| && s[i..i + |pat|] == pat
  }

  /** Kotlin's `s.replace(pat, rep)`: every occurrence of the non-empty
      `pat`, found scanning left to right without overlap, is replaced by
      `rep`; the scan resumes after the replaced occurrence. */
  function ReplaceAll(s: string, pat: string, rep: string): (r: string)
    requires pat != []
    ensures |rep| <= |pat| ==> |r| <= |s|
    decreases |s|
  {
    if |s| < |pat| then s
    else if s[..|pat|] == pat then rep + ReplaceAll(s[|pat|..], pat, rep)
    else [s[0]] + ReplaceAll(s[1..], pat, rep)
  }

  /** Replacing one character by another keeps the length and changes
      exactly the positions that held that character. */
  lemma {:induction false} ReplaceCharAt(s: string, c: char, d: char)
    ensures |ReplaceAll(s, [c], [d])| == |s|
    ensures forall i :: 0 <= i < |s| ==>
      ReplaceAll(s, [c], [d])[i] == if s[i] == c then d else s[i]
    decreases |s|
  {
    if |s| > 0 {
      ReplaceCharAt(s[1..], c, d);
      assert s[..1] == [s[0]];
      var r := ReplaceAll(s, [c], [d]);
      var tail := ReplaceAll(s[1..], [c], [d]);
      assert r == (if s[0] == c then [d] else [s[0]]) + tail;
      forall i | 0 <= i < |s|
        ensures r[i] == if s[i] == c then d else s[i]
      {
        if i > 0 {
          assert r[i] == tail[i - 1];
          assert s[1..][i - 1] == s[i];
        }
      }
    }
  }

  /** Replacement introduces no character that is neither in the input nor
      in the replacement. */
  lemma {:induction false} ReplaceAllKeepsCharacters(s: string, pat: string, rep: string, ch: char)
    requires pat != []
    ensures ch in ReplaceAll(s, pat, rep) ==> ch in s || ch in rep
    decreases |s|
  {
    if |s| >= |pat| {
      if s[..|pat|] == pat {
        ReplaceAllKeepsCharacters(s[|pat|..], pat, rep, ch);
        if ch in s[|pat|..] {
          var k :| 0 <= k < |s[|pat|..]| && s[|pat|..][k] == ch;
          assert s[|pat| + k] == ch;
        }
      } else {
        ReplaceAllKeepsCharacters(s[1..], pat, rep, ch);
        if ch in s[1..] {
          var k :| 0 <= k < |s[1..]| && s[1..][k] == ch;
          assert s[1 + k] == ch;
        }
      }
    }
  }

  /** Where `pat` does not occur, replacement leaves the string as it is. */
  lemma {:induction false} ReplaceAllWithoutOccurrence(s: string, pat: string, rep: string)
    requires pat != []
    requires forall i: nat :: !OccursAt(s, pat, i)
    ensures ReplaceAll(s, pat, rep) == s
    decreases |s|
  {
    if |s| >= |pat| {
      assert !OccursAt(s, pat, 0);
      forall i: nat ensures !OccursAt(s[1..], pat, i) {
        if OccursAt(s[1..], pat, i) {
          assert s[1..][i..i + |pat|] == s[i + 1..i + 1 + |pat|];
          assert OccursAt(s, pat, i + 1);
        }
      }
      ReplaceAllWithoutOccurrence(s[1..], pat, rep);
    }
  }

  /** An occurrence fixes every character it covers. */
  lemma OccursAtChar(s: string, pat: string, i: nat, k: nat)
    requires k < |pat|
    ensures OccursAt(s, pat, i) ==> i + k < |s| && s[i + k] == pat[k]
  {
    if OccursAt(s, pat, i) {
      assert s[i..i + |pat|][k] == s[i + k];
    }
  }

  /** An occurrence at the very front is replaced and the scan continues
      right after it. */
  lemma ReplaceAllAtFront(pat: string, s: string, rep: string)
    requires pat != []
    ensures ReplaceAll(pat + s, pat, rep) == rep + ReplaceAll(s, pat, rep)
  {
    assert (pat + s)[..|pat|] == pat;
    assert (pat + s)[|pat|..] == s;
  }

  /** The directory a model's files live in, derived from its id:
      `modelId.replace("/", "-").replace("google-", "")`. */
  function StorageDir(modelId: string): (dir: string)
    ensures |dir| <= |modelId|
  {
    ReplaceAll(ReplaceAll(modelId, "/", "-"), VendorPart, "")
  }

  /** The derived directory is a single path segment. */
  lemma StorageDirIsOneSegment(modelId: string)
    ensures '/' !in StorageDir(modelId)
  {
    var dashed := ReplaceAll(modelId, "/", "-");
    ReplaceCharAt(modelId, '/', '-');
    assert forall i :: 0 <= i < |dashed| ==> dashed[i] != '/';
    ReplaceAllKeepsCharacters(dashed, VendorPart, "", '/');
  }

  /** An id that is already one segment and mentions no vendor part is its
      own directory name. */
  lemma StorageDirOfPlainId(modelId: string)
    requires '/' !in modelId
    requires forall i: nat :: !OccursAt(modelId, VendorPart, i)
    ensures StorageDir(modelId) == modelId
  {
    ReplaceCharAt(modelId, '/', '-');
    assert ReplaceAll(modelId, "/", "-") == modelId;
    ReplaceAllWithoutOccurrence(modelId, VendorPart, "");
  }

  /** A vendor-qualified id `google/<name>` is stored under `<name>`. */
  lemma StorageDirStripsVendor(name: string)
    requires '/' !in name
    requires forall i: nat :: !OccursAt(name, VendorPart, i)
    ensures StorageDir("google/" + name) == name
  {
    var id := "google/" + name;
    ReplaceCharAt(id, '/', '-');
    var dashed := ReplaceAll(id, "/", "-");
    assert dashed == VendorPart + name by {
      forall i | 0 <= i < |id| ensures dashed[i] == (VendorPart + name)[i] {
        if i >= 7 { assert id[i] == name[i - 7]; }
      }
    }
    ReplaceAllAtFront(VendorPart, name, "");
    ReplaceAllWithoutOccurrence(name, VendorPart, "");
  }

  /** Replacement passes over a front part in which no occurrence starts. */
  lemma {:induction false} ReplaceAllKeepsPlainFront(a: string, s: string, pat: string, rep: string)
    requires pat != []
    requires forall i: nat :: i < |a| ==> !OccursAt(a + s, pat, i)
    ensures ReplaceAll(a + s, pat, rep) == a + ReplaceAll(s, pat, rep)
    decreases |a|
  {
    if |a| > 0 {
      var t := a + s;
      PlainFrontShifts(a, s, pat);
      ReplaceAllKeepsPlainFront(a[1..], s, pat, rep);
      ReplaceAllPassesFirst(t, pat, rep);
      assert t[0] == a[0] && t[1..] == a[1..] + s;
      assert [a[0]] + a[1..] == a;
    } else {
      assert a + s == s;
    }
  }

  /** Dropping the first character keeps the front free of occurrences. */
  lemma PlainFrontShifts(a: string, s: string, pat: string)
    requires |a| > 0
    requires forall i: nat :: i < |a| ==> !OccursAt(a + s, pat, i)
    ensures forall i: nat :: i < |a[1..]| ==> !OccursAt(a[1..] + s, pat, i)
  {
    var t := a + s;
    assert t[1..] == a[1..] + s;
    forall i: nat | i < |a[1..]| ensures !OccursAt(a[1..] + s, pat, i) {
      assert !OccursAt(t, pat, i + 1);
      if i + |pat| <= |t[1..]| {
        assert t[1..][i..i + |pat|] == t[i + 1..i + 1 + |pat|];
      }
    }
  }

  /** Without an occurrence at the front, the first character is kept and
      the scan moves on by one. */
  lemma ReplaceAllPassesFirst(t: string, pat: string, rep: string)
    requires pat != [] && |t| > 0
    requires !OccursAt(t, pat, 0)
    ensures ReplaceAll(t, pat, rep) == [t[0]] + ReplaceAll(t[1..], pat, rep)
  {
    if |t| < |pat| {
      assert ReplaceAll(t[1..], pat, rep) == t[1..];
      assert t == [t[0]] + t[1..];
    }
  }

  /** The vendor part is deleted wherever it occurs, not only at the front. */
  lemma StorageDirDeletesInnerVendorPart(modelId: string)
    requires modelId == "acme/google-x"
    ensures StorageDir(modelId) == "acme-x"
  {
    ReplaceCharAt(modelId, '/', '-');
    var dashed := ReplaceAll(modelId, "/", "-");
    assert |dashed| == 13 && dashed[4] == '-';
    forall i | 0 <= i < 13 && i != 4 ensures dashed[i] == modelId[i] { }
    assert dashed == "acme-" + (VendorPart + "x");
    forall i: nat | i < 5 ensures !OccursAt(dashed, VendorPart, i) {
      OccursAtChar(dashed, VendorPart, i, 6);
      assert dashed[i + 6] != '-';
    }
    ReplaceAllKeepsPlainFront("acme-", VendorPart + "x", VendorPart, "");
    ReplaceAllAtFront(VendorPart, "x", "");
  }

  /** A single left-to-right pass: deleting one occurrence can join the
      pieces around it into a new one, which stays in the directory name. */
  lemma StorageDirMayKeepVendorPart(modelId: string)
    requires modelId == "googoogle-gle-"
    ensures StorageDir(modelId) == VendorPart
  {
    ReplaceCharAt(modelId, '/', '-');
    var dashed := ReplaceAll(modelId, "/", "-");
    forall i | 0 <= i < |modelId| ensures dashed[i] == modelId[i] { }
    assert dashed == "goo" + (VendorPart + "gle-");
    forall i: nat | i < 3 ensures !OccursAt(dashed, VendorPart, i) {
      OccursAtChar(dashed, VendorPart, i, 6);
      assert dashed[i + 6] != '-';
    }
    ReplaceAllKeepsPlainFront("goo", VendorPart + "gle-", VendorPart, "");
    ReplaceAllAtFront(VendorPart, "gle-", "");
    assert ReplaceAll("gle-", VendorPart, "") == "gle-";
    assert ReplaceAll(dashed, VendorPart, "") == "goo" + ("" + "gle-");
    assert "goo" + ("" + "gle-") == VendorPart;
  }

  /** An id made of the vendor part alone derives an empty directory name. */
  lemma StorageDirMayBeEmpty(modelId: string)
    requires modelId == "google-"
    ensures StorageDir(modelId) == ""
  {
    ReplaceCharAt(modelId, '/', '-');
    var dashed := ReplaceAll(modelId, "/", "-");
    forall i | 0 <= i < |modelId| ensures dashed[i] == modelId[i] { }
    assert dashed == VendorPart + "";
    ReplaceAllAtFront(VendorPart, "", "");
  }

  /** `File(File(root, listOf(dir, version).joinToString("/")), fileName)`. */
  function JoinPath(root: string, dir: string, version: string, fileName: string): (path: string)
    ensures |path| == |root| + |dir| + |version| + |fileName| + 3
    ensures path[..|root| + 1] == root + "/"
    ensures path[|path| - |fileName| - 1..] == "/" + fileName
  {
    root + "/" + dir + "/" + version + "/" + fileName
  }

  /** Where the inference handler expects a catalogued model's file. */
  function ModelPath(root: string, modelId: string, fileName: string, version: Option<string>): (path: string)
    ensures |root| + |fileName| + 3 <= |path| <= |root| + |modelId| + |version.GetOr(DefaultVersion)| + |fileName| + 3
    ensures path[..|root| + 1] == root + "/"
    ensures path[|path| - |fileName| - 1..] == "/" + fileName
  {
    JoinPath(root, StorageDir(modelId), version.GetOr(DefaultVersion), fileName)
  }

  /** The separator after a segment is the first one in the string. */
  lemma FirstSeparator(a: string, x: string)
    requires '/' !in a
    ensures (a + "/" + x)[|a|] == '/'
    ensures forall i :: 0 <= i < |a| ==> (a + "/" + x)[i] != '/'
  {
  }

  /** Two segments followed by a separator can be told apart. */
  lemma SplitAtSeparator(a: string, x: string, b: string, y: string)
    requires '/' !in a && '/' !in b
    requires a + "/" + x == b + "/" + y
    ensures a == b && x == y
  {
    FirstSeparator(a, x);
    FirstSeparator(b, y);
    assert |a| == |b|;
    assert a == (a + "/" + x)[..|a|];
    assert b == (b + "/" + y)[..|b|];
    assert x == (a + "/" + x)[|a| + 1..];
    assert y == (b + "/" + y)[|b| + 1..];
  }

  /** Under one root, the layout gives different files to different
      (directory, version, file name) triples whose directory and version
      are single non-empty segments and whose file name is not empty (an
      empty part would be dropped by the file-path join). */
  lemma JoinPathInjective(root: string, d1: string, v1: string, f1: string,
                          d2: string, v2: string, f2: string)
    requires '/' !in d1 && '/' !in d2 && '/' !in v1 && '/' !in v2
    requires d1 != "" && d2 != "" && v1 != "" && v2 != "" && f1 != "" && f2 != ""
    requires JoinPath(root, d1, v1, f1) == JoinPath(root, d2, v2, f2)
    ensures d1 == d2 && v1 == v2 && f1 == f2
  {
    var t1 := d1 + "/" + (v1 + "/" + f1);
    var t2 := d2 + "/" + (v2 + "/" + f2);
    assert JoinPath(root, d1, v1, f1) == root + "/" + t1;
    assert JoinPath(root, d2, v2, f2) == root + "/" + t2;
    assert t1 == (root + "/" + t1)[|root| + 1..];
    assert t2 == (root + "/" + t2)[|root| + 1..];
    SplitAtSeparator(d1, v1 + "/" + f1, d2, v2 + "/" + f2);
    SplitAtSeparator(v1, f1, v2, f2);
  }

  /** `file.exists() && file.length() == size`. */
  predicate Present(fs: FileSystem, path: string, size: int) {
    path in fs && fs[path] == size
  }
}
