/**
 * The link check of yosaver.py:35-38. The pattern
 *   (https?://)?(www\.)?(youtube|youtu|youtube-nocookie)\.(com|be)/(watch\?v=|embed/|v/|.+\?v=)?([^&=%\\?]{11})
 * is applied with `re.match`, which is anchored at the start of the text only:
 * a text is accepted when SOME prefix of it belongs to the pattern's language.
 * Matching is case-sensitive (no IGNORECASE flag), and the `.` of `.+` does not
 * match a newline (no DOTALL flag).
 *
 * `Matches` states the language as a decomposition of the text into parts;
 * `SchemeThen` and the stage predicates below it are an executable matcher
 * proved equal to it, and `IsValidYouTubeUrl` carries that equality.
 */
module UrlValidator {

  // ---------------------------------------------------------------------------
  // The language, part by part

  predicate IsScheme(x: string) { x == "" || x == "http://" || x == "https://" }

  predicate IsWww(x: string) { x == "" || x == "www." }

  predicate IsHost(x: string) { x == "youtube" || x == "youtu" || x == "youtube-nocookie" }

  predicate IsTld(x: string) { x == "com" || x == "be" }

  /** A character of the class `[^&=%\\?]`. */
  predicate IsIdChar(c: char) {
    c != '&' && c != '=' && c != '%' && c != '\\' && c != '?'
  }

  predicate IsVideoId(x: string) {
    |x| == 11 && forall i :: 0 <= i < |x| ==> IsIdChar(x[i])
  }

  predicate NoNewline(x: string) {
    forall i :: 0 <= i < |x| ==> x[i] != '\n'
  }

  /** The optional group `(watch\?v=|embed/|v/|.+\?v=)?`. */
  predicate IsPathPrefix(x: string) {
    || x == "" || x == "watch?v=" || x == "embed/" || x == "v/"
    || (|x| >= 4 && x[|x| - 3..] == "?v=" && NoNewline(x[..|x| - 3]))
  }

  /** One way of reading a text as a match of the pattern. */
  datatype Parts = Parts(scheme: string, www: string, host: string, tld: string, path: string, id: string)

  predicate WellFormed(p: Parts) {
    IsScheme(p.scheme) && IsWww(p.www) && IsHost(p.host) && IsTld(p.tld)
    && IsPathPrefix(p.path) && IsVideoId(p.id)
  }

  /** The matched text: `scheme www host "." tld "/" path id`. */
  function Render(p: Parts): string {
    p.scheme + (p.www + (p.host + ("." + (p.tld + ("/" + (p.path + p.id))))))
  }

  /** What `re.match(youtube_regex, s)` finds: a prefix of `s` in the language. */
  ghost predicate Matches(s: string) {
    exists p :: WellFormed(p) && Render(p) <= s
  }

  // ---------------------------------------------------------------------------
  // The executable matcher, one function per group of the pattern; each looks
  // at what is left of the text after the groups before it.

  /** `([^&=%\\?]{11})` at the start of `r`. */
  predicate IdAt(r: string) {
    |r| >= 11 && forall i :: 0 <= i < 11 ==> IsIdChar(r[i])
  }

  /**
   * The alternative `.+\?v=` followed by an id: tries each end `j` of the
   * `.+` part, from `j` upwards; `r[..j - 1]` is already known to hold no
   * newline, and a newline at `r[j - 1]` ends the search.
   */
  predicate QueryFrom(r: string, j: nat)
    requires 1 <= j
    decreases |r| - j
  {
    if j + 14 > |r| || r[j - 1] == '\n' then false
    else (r[j..j + 3] == "?v=" && IdAt(r[j + 3..])) || QueryFrom(r, j + 1)
  }

  predicate PathThenId(r: string) {
    || IdAt(r)
    || ("watch?v=" <= r && IdAt(r[8..]))
    || ("embed/" <= r && IdAt(r[6..]))
    || ("v/" <= r && IdAt(r[2..]))
    || QueryFrom(r, 1)
  }

  predicate TldThen(r: string) {
    || (".com/" <= r && PathThenId(r[5..]))
    || (".be/" <= r && PathThenId(r[4..]))
  }

  predicate HostThen(r: string) {
    || ("youtube" <= r && TldThen(r[7..]))
    || ("youtu" <= r && TldThen(r[5..]))
    || ("youtube-nocookie" <= r && TldThen(r[16..]))
  }

  predicate WwwThen(r: string) {
    HostThen(r) || ("www." <= r && HostThen(r[4..]))
  }

  /** The whole pattern: an optional `http://` or `https://`, then the rest. */
  predicate SchemeThen(s: string) {
    || WwwThen(s)
    || ("http://" <= s && WwwThen(s[7..]))
    || ("https://" <= s && WwwThen(s[8..]))
  }

  // ---------------------------------------------------------------------------
  // Prefix bookkeeping

  lemma PrefixJoin(a: string, b: string, r: string)
    requires a <= r && b <= r[|a|..]
    ensures a + b <= r
  {
    assert (a + b) == r[..|a| + |b|];
  }

  lemma PrefixSplit(a: string, b: string, r: string)
    requires a + b <= r
    ensures a <= r && b <= r[|a|..]
  {
    assert a == (a + b)[..|a|];
    assert b == (a + b)[|a|..];
  }

  // ---------------------------------------------------------------------------
  // Soundness: every acceptance of the matcher comes from a decomposition.

  lemma IdAtSound(r: string) returns (id: string)
    requires IdAt(r)
    ensures IsVideoId(id) && id <= r
  {
    id := r[..11];
  }

  lemma {:induction false} QueryFromSound(r: string, j: nat) returns (path: string, id: string)
    requires 1 <= j && QueryFrom(r, j) && NoNewline(r[..j - 1])
    ensures IsPathPrefix(path) && IsVideoId(id) && path + id <= r
    decreases |r| - j
  {
    assert r[..j] == r[..j - 1] + [r[j - 1]];
    if r[j..j + 3] == "?v=" && IdAt(r[j + 3..]) {
      path := r[..j + 3];
      assert path[|path| - 3..] == "?v=";
      assert path[..|path| - 3] == r[..j];
      id := IdAtSound(r[j + 3..]);
      PrefixJoin(path, id, r);
    } else {
      path, id := QueryFromSound(r, j + 1);
    }
  }

  /**
   * The prefixed alternatives are tried first: `embed/` and `v/` consist of
   * id characters, so wherever they match, a bare id matches as well.
   */
  lemma PathThenIdSound(r: string) returns (path: string, id: string)
    requires PathThenId(r)
    ensures IsPathPrefix(path) && IsVideoId(id) && path + id <= r
  {
    if "watch?v=" <= r && IdAt(r[8..]) {
      path := "watch?v=";
      id := IdAtSound(r[8..]);
      PrefixJoin(path, id, r);
    } else if "embed/" <= r && IdAt(r[6..]) {
      path := "embed/";
      id := IdAtSound(r[6..]);
      PrefixJoin(path, id, r);
    } else if "v/" <= r && IdAt(r[2..]) {
      path := "v/";
      id := IdAtSound(r[2..]);
      PrefixJoin(path, id, r);
    } else if QueryFrom(r, 1) {
      path, id := QueryFromSound(r, 1);
    } else {
      path := "";
      id := IdAtSound(r);
      assert path + id == id;
    }
  }

  lemma TldJoin(tld: string, rest: string, r: string)
    requires "." + tld + "/" <= r && rest <= r[|tld| + 2..]
    ensures "." + (tld + ("/" + rest)) <= r
  {
    PrefixJoin("." + tld + "/", rest, r);
    assert "." + tld + "/" + rest == "." + (tld + ("/" + rest));
  }

  lemma TldThenSound(r: string) returns (tld: string, path: string, id: string)
    requires TldThen(r)
    ensures IsTld(tld) && IsPathPrefix(path) && IsVideoId(id)
    ensures "." + (tld + ("/" + (path + id))) <= r
  {
    if ".com/" <= r && PathThenId(r[5..]) {
      tld := "com";
      assert "." + tld + "/" == ".com/";
    } else {
      tld := "be";
      assert "." + tld + "/" == ".be/";
    }
    path, id := PathThenIdSound(r[|tld| + 2..]);
    TldJoin(tld, path + id, r);
  }

  lemma HostThenSound(r: string) returns (host: string, tld: string, path: string, id: string)
    requires HostThen(r)
    ensures IsHost(host) && IsTld(tld) && IsPathPrefix(path) && IsVideoId(id)
    ensures host + ("." + (tld + ("/" + (path + id)))) <= r
  {
    if "youtube" <= r && TldThen(r[7..]) {
      host := "youtube";
    } else if "youtu" <= r && TldThen(r[5..]) {
      host := "youtu";
    } else {
      host := "youtube-nocookie";
    }
    tld, path, id := TldThenSound(r[|host|..]);
    PrefixJoin(host, "." + (tld + ("/" + (path + id))), r);
  }

  lemma WwwThenSound(r: string) returns (www: string, host: string, tld: string, path: string, id: string)
    requires WwwThen(r)
    ensures IsWww(www) && IsHost(host) && IsTld(tld) && IsPathPrefix(path) && IsVideoId(id)
    ensures www + (host + ("." + (tld + ("/" + (path + id))))) <= r
  {
    www := if HostThen(r) then "" else "www.";
    host, tld, path, id := HostThenSound(r[|www|..]);
    PrefixJoin(www, host + ("." + (tld + ("/" + (path + id)))), r);
  }

  lemma SchemeSound(s: string) returns (scheme: string)
    requires SchemeThen(s)
    ensures IsScheme(scheme) && scheme <= s && WwwThen(s[|scheme|..])
  {
    if WwwThen(s) {
      scheme := "";
      assert s[|scheme|..] == s;
    } else if "http://" <= s && WwwThen(s[7..]) {
      scheme := "http://";
    } else {
      scheme := "https://";
    }
  }

  /** Whatever the matcher accepts starts with a match of the pattern. */
  lemma CheckerSound(s: string) returns (p: Parts)
    requires SchemeThen(s)
    ensures WellFormed(p) && Render(p) <= s
  {
    var scheme := SchemeSound(s);
    var www, host, tld, path, id := WwwThenSound(s[|scheme|..]);
    p := Parts(scheme, www, host, tld, path, id);
    PrefixJoin(scheme, www + (host + ("." + (tld + ("/" + (path + id))))), s);
  }

  // ---------------------------------------------------------------------------
  // Completeness: every decomposition is found by the matcher.

  lemma IdAtComplete(id: string, r: string)
    requires IsVideoId(id) && id <= r
    ensures IdAt(r)
  {
    assert forall i :: 0 <= i < 11 ==> r[i] == id[i];
  }

  lemma {:induction false} QueryFromComplete(q: string, id: string, r: string, j: nat)
    requires 1 <= j <= |q| && NoNewline(q) && IsVideoId(id) && q + ("?v=" + id) <= r
    ensures QueryFrom(r, j)
    decreases |q| - j
  {
    PrefixSplit(q, "?v=" + id, r);
    assert r[j - 1] == q[j - 1];
    if j == |q| {
      PrefixSplit("?v=", id, r[j..]);
      assert r[j..][..3] == r[j..j + 3];
      assert r[j..][3..] == r[j + 3..];
      IdAtComplete(id, r[j + 3..]);
    } else {
      QueryFromComplete(q, id, r, j + 1);
    }
  }

  lemma PathThenIdComplete(path: string, id: string, r: string)
    requires IsPathPrefix(path) && IsVideoId(id) && path + id <= r
    ensures PathThenId(r)
  {
    PrefixSplit(path, id, r);
    if path == "" {
      IdAtComplete(id, r);
    } else if path == "watch?v=" || path == "embed/" || path == "v/" {
      IdAtComplete(id, r[|path|..]);
    } else {
      var q := path[..|path| - 3];
      assert path == q + "?v=";
      assert q + ("?v=" + id) == path + id;
      QueryFromComplete(q, id, r, |q|);
      QueryFromFromOne(r, |q|);
    }
  }

  /** A match found from position `j` is also found by a search that starts at 1. */
  lemma {:induction false} QueryFromFromOne(r: string, j: nat)
    requires 1 <= j && QueryFrom(r, j) && NoNewline(r[..j - 1])
    ensures QueryFrom(r, 1)
    decreases j
  {
    if j > 1 {
      assert r[..j - 2] == r[..j - 1][..j - 2];
      assert r[j - 2] == r[..j - 1][j - 2];
      QueryFromFromOne(r, j - 1);
    }
  }

  lemma TldThenComplete(tld: string, path: string, id: string, r: string)
    requires IsTld(tld) && IsPathPrefix(path) && IsVideoId(id)
    requires "." + (tld + ("/" + (path + id))) <= r
    ensures TldThen(r)
  {
    var head := "." + tld + "/";
    assert "." + (tld + ("/" + (path + id))) == head + (path + id);
    PrefixSplit(head, path + id, r);
    PathThenIdComplete(path, id, r[|head|..]);
  }

  lemma HostThenComplete(host: string, tld: string, path: string, id: string, r: string)
    requires IsHost(host) && IsTld(tld) && IsPathPrefix(path) && IsVideoId(id)
    requires host + ("." + (tld + ("/" + (path + id)))) <= r
    ensures HostThen(r)
  {
    var tail := "." + (tld + ("/" + (path + id)));
    PrefixSplit(host, tail, r);
    var rest := r[|host|..];
    TldThenComplete(tld, path, id, rest);
    HostThenFrom(host, r);
  }

  lemma HostThenFrom(host: string, r: string)
    requires IsHost(host) && host <= r && TldThen(r[|host|..])
    ensures HostThen(r)
  {
    if host == "youtube" {
      assert "youtube" <= r && TldThen(r[7..]);
    } else if host == "youtu" {
      assert "youtu" <= r && TldThen(r[5..]);
    } else {
      assert "youtube-nocookie" <= r && TldThen(r[16..]);
    }
  }

  lemma WwwThenComplete(www: string, host: string, tld: string, path: string, id: string, r: string)
    requires IsWww(www) && IsHost(host) && IsTld(tld) && IsPathPrefix(path) && IsVideoId(id)
    requires www + (host + ("." + (tld + ("/" + (path + id))))) <= r
    ensures WwwThen(r)
  {
    PrefixSplit(www, host + ("." + (tld + ("/" + (path + id)))), r);
    HostThenComplete(host, tld, path, id, r[|www|..]);
    if www == "" {
      assert r[|www|..] == r;
    }
  }

  lemma SchemeThenFrom(scheme: string, s: string)
    requires IsScheme(scheme) && scheme <= s && WwwThen(s[|scheme|..])
    ensures SchemeThen(s)
  {
    if scheme == "" {
      assert s[|scheme|..] == s;
    } else if scheme == "http://" {
      assert "http://" <= s && WwwThen(s[7..]);
    } else {
      assert "https://" <= s && WwwThen(s[8..]);
    }
  }

  /** Every decomposition of a prefix of `s` makes the matcher accept `s`. */
  lemma CheckerComplete(p: Parts, s: string)
    requires WellFormed(p) && Render(p) <= s
    ensures SchemeThen(s)
  {
    var tail := p.www + (p.host + ("." + (p.tld + ("/" + (p.path + p.id)))));
    PrefixSplit(p.scheme, tail, s);
    WwwThenComplete(p.www, p.host, p.tld, p.path, p.id, s[|p.scheme|..]);
    SchemeThenFrom(p.scheme, s);
  }

  // ---------------------------------------------------------------------------
  // Properties of the check

  /** The stage chain decides exactly the language of the pattern, under `re.match`. */
  lemma CheckerIsMatches(s: string)
    ensures SchemeThen(s) <==> Matches(s)
  {
    if SchemeThen(s) {
      var p := CheckerSound(s);
    }
    if Matches(s) {
      var p :| WellFormed(p) && Render(p) <= s;
      CheckerComplete(p, s);
    }
  }

  /** is_valid_youtube_url (yosaver.py:35-38): `re.match` of the pattern against `s`. */
  function IsValidYouTubeUrl(s: string): (b: bool)
    ensures b <==> Matches(s)
  {
    CheckerIsMatches(s);
    SchemeThen(s)
  }

  /** Anchoring at the start only: whatever follows a valid link is ignored. */
  lemma ValidExtends(s: string, t: string)
    requires IsValidYouTubeUrl(s)
    ensures IsValidYouTubeUrl(s + t)
  {
    var p := CheckerSound(s);
    assert s <= s + t;
    CheckerComplete(p, s + t);
  }

  /** The shortest accepted text is `youtu.be/` and an 11-character id: 20 characters. */
  lemma ValidIsLong(s: string)
    requires IsValidYouTubeUrl(s)
    ensures |s| >= 20
  {
    var p := CheckerSound(s);
  }

  lemma EmptyRejected()
    ensures !IsValidYouTubeUrl("")
  {
    if IsValidYouTubeUrl("") {
      ValidIsLong("");
    }
  }

  /** A watch link on the canonical host with an 11-character id is accepted. */
  lemma WatchLinkAccepted(id: string)
    requires IsVideoId(id)
    ensures IsValidYouTubeUrl("https://www.youtube.com/watch?v=" + id)
  {
    var s := "https://www.youtube.com/watch?v=" + id;
    var p := Parts("https://", "www.", "youtube", "com", "watch?v=", id);
    assert Render(p) == s;
    CheckerComplete(p, s);
  }

  /**
   * Where the `.+\?v=` search succeeds, the `?v=` and the id lie inside `r`:
   * the search never reads past the end of the text, and what it reports
   * is an actual occurrence of `?v=` followed by an id.
   */
  lemma {:induction false} QueryFromWitness(r: string, j: nat) returns (k: nat)
    requires 1 <= j && QueryFrom(r, j)
    ensures j <= k && k + 14 <= |r| && r[k..k + 3] == "?v=" && IdAt(r[k + 3..])
    decreases |r| - j
  {
    if r[j..j + 3] == "?v=" && IdAt(r[j + 3..]) {
      k := j;
    } else {
      k := QueryFromWitness(r, j + 1);
    }
  }

  /** The `.+\?v=` search from `j` fails when no `?` can start the `?v=`. */
  lemma {:induction false} QueryFromNeedsMark(r: string, j: nat)
    requires 1 <= j
    requires forall k :: j <= k && k + 14 <= |r| ==> r[k] != '?'
    ensures !QueryFrom(r, j)
    decreases |r| - j
  {
    if j + 14 <= |r| && r[j - 1] != '\n' {
      assert r[j..j + 3][0] == r[j];
      QueryFromNeedsMark(r, j + 1);
    }
  }

  lemma {:induction false} WatchPathShortId(id: string)
    requires |id| == 10
    ensures !PathThenId("watch?v=" + id)
  {
    var r := "watch?v=" + id;
    assert !IdAt(r) by { assert r[5] == '?'; }
    assert forall k :: 1 <= k && k + 14 <= |r| ==> r[k] != '?' by {
      assert r[1] == 'a' && r[2] == 't' && r[3] == 'c' && r[4] == 'h';
    }
    QueryFromNeedsMark(r, 1);
  }

  lemma {:induction false} ComPrefixRejected(t: string)
    requires !PathThenId(t)
    ensures !TldThen(".com/" + t)
  {
    var r := ".com/" + t;
    assert r[5..] == t;
    assert !(".be/" <= r) by { assert r[1] == 'c'; }
  }

  lemma {:induction false} YoutubePrefixRejected(t: string)
    requires !TldThen(t) && |t| > 0 && t[0] == '.'
    ensures !HostThen("youtube" + t)
  {
    var r := "youtube" + t;
    assert r[7..] == t;
    assert !TldThen(r[5..]) by { assert r[5] == 'b'; }
    assert !("youtube-nocookie" <= r) by { assert r[7] == '.'; }
  }

  lemma {:induction false} HostThenShortId(id: string)
    requires |id| == 10
    ensures !HostThen("youtube.com/watch?v=" + id)
  {
    var t := "watch?v=" + id;
    assert "youtube" + (".com/" + t) == "youtube.com/watch?v=" + id;
    WatchPathShortId(id);
    ComPrefixRejected(t);
    YoutubePrefixRejected(".com/" + t);
  }

  lemma {:induction false} WwwPrefixRejected(t: string)
    requires !HostThen(t)
    ensures !WwwThen("www." + t)
  {
    var r := "www." + t;
    assert r[4..] == t;
    assert !HostThen(r) by { assert r[0] == 'w'; }
  }

  lemma {:induction false} HttpsPrefixRejected(t: string)
    requires !WwwThen(t)
    ensures !IsValidYouTubeUrl("https://" + t)
  {
    var s := "https://" + t;
    assert s[8..] == t;
    // Without a scheme, a match would have to start with the host or `www.`.
    assert !WwwThen(s) by { assert s[0] == 'h'; }
    assert !("http://" <= s) by { assert s[4] == 's'; }
  }

  /** The same link with a 10-character id and nothing after it is rejected. */
  lemma {:induction false} WatchLinkShortIdRejected(id: string)
    requires |id| == 10
    ensures !IsValidYouTubeUrl("https://www.youtube.com/watch?v=" + id)
  {
    var t := "youtube.com/watch?v=" + id;
    assert "https://" + ("www." + t) == "https://www.youtube.com/watch?v=" + id;
    HostThenShortId(id);
    WwwPrefixRejected(t);
    HttpsPrefixRejected("www." + t);
  }

  /** Matching is case-sensitive: an upper-case host is not recognised. */
  lemma {:induction false} UpperCaseHostRejected(rest: string)
    ensures !IsValidYouTubeUrl("https://www.YouTube.com/" + rest)
  {
    var t := "YouTube.com/" + rest;
    assert "https://" + ("www." + t) == "https://www.YouTube.com/" + rest;
    assert !HostThen(t) by { assert t[0] == 'Y'; }
    WwwPrefixRejected(t);
    HttpsPrefixRejected("www." + t);
  }
}
