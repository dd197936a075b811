/**
 The string formats that one process writes and another parses: image URIs, S3 log
 URIs and pagination cursors.
 */
module Formats {
  import opened Wrappers

  // ---------------------------------------------------------------- splitting and joining

  /** `s.split(c)`: the pieces between the separators, at least one. */
  function Split(s: string, c: char): (parts: seq<string>)
    ensures |parts| > 0
  {
    if s == [] then [""]
    else
      var rest := Split(s[1..], c);
      if s[0] == c then [""] + rest else [[s[0]] + rest[0]] + rest[1..]
  }

  /** `c.join(parts)` */
  function Join(parts: seq<string>, c: char): string {
    if parts == [] then "" else if |parts| == 1 then parts[0] else parts[0] + [c] + Join(parts[1..], c)
  }

  /** `s.split(c, 1)`: the pieces before and after the first separator, if there is one. */
  function SplitFirst(s: string, c: char): Option<(string, string)> {
    if s == [] then None
    else if s[0] == c then Some(("", s[1..]))
    else match SplitFirst(s[1..], c)
      case None => None
      case Some(p) => Some(([s[0]] + p.0, p.1))
  }

  /** `s.rsplit(c, 1)`: the pieces before and after the last separator, if there is one. */
  function SplitLast(s: string, c: char): Option<(string, string)> {
    if s == [] then None
    else
      var n := |s| - 1;
      if s[n] == c then Some((s[..n], ""))
      else match SplitLast(s[..n], c)
        case None => None
        case Some(p) => Some((p.0, p.1 + [s[n]]))
  }

  lemma {:induction false} JoinSplit(s: string, c: char)
    ensures Join(Split(s, c), c) == s
  {
    if s != [] {
      JoinSplit(s[1..], c);
      var rest := Split(s[1..], c);
      if s[0] == c {
        assert ([""] + rest)[1..] == rest;
      } else {
        assert ([[s[0]] + rest[0]] + rest[1..])[1..] == rest[1..];
      }
    }
  }

  /** Pieces never contain the separator. */
  lemma {:induction false} PiecesAreClean(s: string, c: char)
    ensures forall p | p in Split(s, c) :: c !in p
  {
    if s != [] { PiecesAreClean(s[1..], c); }
  }

  lemma {:induction false} SplitAfter(a: string, b: string, c: char)
    requires c !in a
    ensures Split(a + [c] + b, c) == [a] + Split(b, c)
  {
    var s := a + [c] + b;
    if a == [] {
      assert s[1..] == b;
    } else {
      assert s[1..] == a[1..] + [c] + b;
      SplitAfter(a[1..], b, c);
      assert [a[0]] + a[1..] == a;
    }
  }

  lemma {:induction false} SplitFirstAfter(a: string, b: string, c: char)
    requires c !in a
    ensures SplitFirst(a + [c] + b, c) == Some((a, b))
  {
    var s := a + [c] + b;
    if a == [] {
      assert s[1..] == b;
    } else {
      assert s[1..] == a[1..] + [c] + b;
      SplitFirstAfter(a[1..], b, c);
      assert [a[0]] + a[1..] == a;
    }
  }

  /** What comes before the first separator is free of it. */
  lemma {:induction false} SplitFirstClean(s: string, c: char)
    ensures match SplitFirst(s, c) case Some(p) => c !in p.0 case None => c !in s
  {
    if s != [] && s[0] != c { SplitFirstClean(s[1..], c); }
  }

  lemma {:induction false} SplitLastBefore(a: string, b: string, c: char)
    requires c !in b
    ensures SplitLast(a + [c] + b, c) == Some((a, b))
    decreases |b|
  {
    var s := a + [c] + b;
    var n := |s| - 1;
    if b == [] {
      assert s[..n] == a;
    } else {
      assert s[..n] == a + [c] + b[..|b| - 1];
      SplitLastBefore(a, b[..|b| - 1], c);
      assert b[..|b| - 1] + [s[n]] == b;
    }
  }

  lemma {:induction false} SplitLastClean(s: string, c: char)
    ensures match SplitLast(s, c) case Some(p) => c !in p.1 case None => c !in s
    decreases |s|
  {
    if s != [] && s[|s| - 1] != c { SplitLastClean(s[..|s| - 1], c); }
  }

  /** The first piece is all, or what comes before a separator. */
  lemma {:induction false} FirstPiece(s: string, c: char)
    ensures s == Split(s, c)[0] || Split(s, c)[0] + [c] <= s
  {
    if s != [] && s[0] != c { FirstPiece(s[1..], c); }
  }

  // ---------------------------------------------------------------- image URIs

  /** The API: the registry host is what precedes the first slash of the configured URL. */
  function ImageUri(ecrUrl: string, project: string, dep: string): string {
    (if ecrUrl != "" then Split(ecrUrl, '/')[0] else "local") + ['/'] + ("shipzen-builds/" + project) + [':'] + dep
  }

  /** The controller: the repository it makes sure exists. */
  function RepositoryOf(project: string): string { "shipzen-builds/" + project }

  /** The worker: strip the tag, then the registry host; None is the IndexError it catches. */
  function ParseImage(image: string): Option<(string, string)> {
    match SplitLast(image, ':')
    case None => None
    case Some(p) => (match SplitFirst(p.0, '/')
                     case None => None
                     case Some(q) => Some((q.1, p.1)))
  }

  /**
   The worker's parse of an image URI gives back the repository that the controller
   ensures and the deployment id as its tag, exactly when the id has no colon; the
   registry host never needs an assumption, for the API cuts it at its first slash.
   */
  lemma ImageRoundTrip(ecrUrl: string, project: string, dep: string)
    ensures ParseImage(ImageUri(ecrUrl, project, dep)) == Some((RepositoryOf(project), dep)) <==> ':' !in dep
    ensures exists host ::
              && ImageUri(ecrUrl, project, dep) == host + "/shipzen-builds/" + project + ":" + dep
              && '/' !in host && (ecrUrl == "" ==> host == "local")
              && (ecrUrl == host || host + "/" <= ecrUrl || ecrUrl == "")
  {
    var host := if ecrUrl != "" then Split(ecrUrl, '/')[0] else "local";
    var image := ImageUri(ecrUrl, project, dep);
    PiecesAreClean(ecrUrl, '/');
    FirstPiece(ecrUrl, '/');
    assert '/' !in host;
    assert image == host + "/shipzen-builds/" + project + ":" + dep;
    if ':' !in dep {
      SplitLastBefore(host + ['/'] + RepositoryOf(project), dep, ':');
      SplitFirstAfter(host, RepositoryOf(project), '/');
    } else {
      SplitLastClean(image, ':');
    }
  }

  // ---------------------------------------------------------------- S3 log URIs

  function LogUri(bucket: string, key: string): string { "s3://" + bucket + ['/'] + key }

  /** The API: the third piece is the bucket and the rest is the key. */
  function ParseLogUri(uri: string): Option<(string, string)> {
    var parts := Split(uri, '/');
    if |parts| < 3 then None else Some((parts[2], Join(parts[3..], '/')))
  }

  /** The API's parse gives back the worker's bucket and key exactly when the bucket has no slash. */
  lemma LogUriRoundTrip(bucket: string, key: string)
    ensures ParseLogUri(LogUri(bucket, key)) == Some((bucket, key)) <==> '/' !in bucket
    ensures LogUri(bucket, key) == "s3://" + bucket + "/" + key
  {
    var uri := LogUri(bucket, key);
    if '/' !in bucket {
      var tail := bucket + ['/'] + key;
      assert uri == "s3:" + ['/'] + ("" + ['/'] + tail);
      SplitAfter("s3:", "" + ['/'] + tail, '/');
      SplitAfter("", tail, '/');
      SplitAfter(bucket, key, '/');
      assert Split(uri, '/') == ["s3:", "", bucket] + Split(key, '/');
      assert Split(uri, '/')[3..] == Split(key, '/');
      JoinSplit(key, '/');
    } else {
      PiecesAreClean(uri, '/');
    }
  }

  // ---------------------------------------------------------------- cursors

  function Cursor(updatedAt: string, dep: string): string { updatedAt + ['|'] + dep }

  /** A printed cursor splits back into its pair exactly when the timestamp has no bar. */
  lemma CursorRoundTrip(updatedAt: string, dep: string)
    ensures SplitFirst(Cursor(updatedAt, dep), '|') == Some((updatedAt, dep)) <==> '|' !in updatedAt
    ensures Cursor(updatedAt, dep) == updatedAt + "|" + dep
  {
    if '|' !in updatedAt {
      SplitFirstAfter(updatedAt, dep, '|');
    } else {
      SplitFirstClean(Cursor(updatedAt, dep), '|');
    }
  }
}
