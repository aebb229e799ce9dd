/** Dump targets in the SUSE form of the kdump configuration: a location of the form scheme://server/path, and
    the key of ssh targets. */
module KdumpTargets {
  import opened Options
  import opened Strings

  /** The two settings that hold a target. */
  datatype Saved = Saved(savedir: Option<string>, identity: Option<string>)

  /** A local target that nothing was saved for has no path. */
  datatype Target =
    | Local(localPath: Option<string>)
    | Nfs(server: string, export_: string, path: string)
    | Remote(scheme: string, server: string, path: string, sshkey: Option<string>)

  // ----- Locations

  predicate StartsWith(s: string, prefix: string) { prefix <= s }

  /** A location taken apart at its last "://" that a "/" still follows. */
  function TakeApart(s: string): Option<(string, string, string)> {
    if s == "" then None
    else
      var later := TakeApart(s[1..]);
      if later.Some? then Some(([s[0]] + later.value.0, later.value.1, later.value.2))
      else if StartsWith(s, "://") && !Avoids(s[3..], '/') then
        var server := UpToSlash(s[3..]);
        Some(("", server, s[3 + |server|..]))
      else None
  }

  function UpToSlash(s: string): (r: string)
    ensures |r| <= |s|
  {
    if s == "" || s[0] == '/' then "" else [s[0]] + UpToSlash(s[1..])
  }

  /** Text in which another location could be found. */
  ghost predicate Ambiguous(s: string) {
    exists p | 0 <= p < |s| :: StartsWith(s[p..], "://") && !Avoids(s[p..][3..], '/')
  }

  lemma {:induction false} ApartUnless(s: string)
    ensures TakeApart(s).Some? <==> Ambiguous(s)
  {
    if s != "" {
      ApartUnless(s[1..]);
      if Ambiguous(s[1..]) {
        var p :| 0 <= p < |s[1..]| && StartsWith(s[1..][p..], "://") && !Avoids(s[1..][p..][3..], '/');
        assert s[1..][p..] == s[p + 1..];
      }
      if Ambiguous(s) {
        var p :| 0 <= p < |s| && StartsWith(s[p..], "://") && !Avoids(s[p..][3..], '/');
        if p > 0 {
          assert s[1..][p - 1..] == s[p..];
        } else {
          assert s[0..] == s;
        }
      }
      if StartsWith(s, "://") && !Avoids(s[3..], '/') {
        assert s[0..] == s;
      }
    }
  }

  lemma OneMore(c: char, scheme: string, server: string, path: string)
    ensures [c] + (scheme + "://" + server + path) == [c] + scheme + "://" + server + path
  {
  }

  /** What is taken apart is what it was put together from. */
  lemma {:induction false} ApartIs(s: string)
    requires TakeApart(s).Some?
    ensures var (scheme, server, path) := TakeApart(s).value;
      s == scheme + "://" + server + path && Avoids(server, '/') && path != "" && path[0] == '/'
  {
    hide Avoids, UpToSlash;
    if TakeApart(s[1..]).Some? {
      ApartIs(s[1..]);
      var (scheme, server, path) := TakeApart(s[1..]).value;
      OneMore(s[0], scheme, server, path);
      assert s == [s[0]] + s[1..];
    } else {
      SlashIs(s[3..]);
      assert s == "://" + s[3..];
      var server := UpToSlash(s[3..]);
      assert s[3..] == server + s[3 + |server|..];
    }
  }

  lemma {:induction false} SlashIs(s: string)
    ensures Avoids(UpToSlash(s), '/') && UpToSlash(s) <= s
    ensures !Avoids(s, '/') ==> |UpToSlash(s)| < |s| && s[|UpToSlash(s)|] == '/'
    ensures Avoids(s, '/') ==> UpToSlash(s) == s
  {
    if s != "" && s[0] != '/' {
      SlashIs(s[1..]);
      assert s == [s[0]] + s[1..];
      if !Avoids(s, '/') {
        var i :| 0 <= i < |s| && s[i] == '/';
        assert s[1..][i - 1] == '/';
      }
    }
  }

  lemma {:induction false} SlashAt(server: string, path: string)
    requires Avoids(server, '/') && path != "" && path[0] == '/'
    ensures UpToSlash(server + path) == server
  {
    if server == "" {
      assert server + path == path;
    } else {
      assert Avoids(server[1..], '/') by { assert forall i | 0 <= i < |server[1..]| :: server[1..][i] == server[i + 1]; }
      SlashAt(server[1..], path);
      assert (server + path)[1..] == server[1..] + path;
    }
  }

  /** The parts come back exactly when the server has no "/", the path begins with one, and no other location
      begins in them. */
  lemma {:induction false} ApartRoundTrip(scheme: string, server: string, path: string)
    requires Avoids(server, '/') && path != "" && path[0] == '/'
    ensures TakeApart(scheme + "://" + server + path) == Some((scheme, server, path)) <==> !Ambiguous(server + path)
  {
    hide Avoids, Ambiguous, UpToSlash;
    var s := scheme + "://" + server + path;
    if scheme == "" {
      FirstApart(server, path);
      assert s == "://" + (server + path);
    } else {
      ApartRoundTrip(scheme[1..], server, path);
      assert s[1..] == scheme[1..] + "://" + server + path;
      assert scheme == [scheme[0]] + scheme[1..];
      SomethingApart(scheme[1..], server, path);
    }
  }

  lemma {:induction false} SomethingApart(scheme: string, server: string, path: string)
    requires path != "" && path[0] == '/'
    ensures TakeApart(scheme + "://" + server + path).Some?
  {
    var s := scheme + "://" + server + path;
    ApartUnless(s);
    assert s[|scheme|..] == "://" + (server + path);
    assert s[|scheme|..][3..] == server + path;
    assert (server + path)[|server|] == '/';
  }

  lemma FirstApart(server: string, path: string)
    requires Avoids(server, '/') && path != "" && path[0] == '/'
    ensures TakeApart("://" + (server + path)) == Some(("", server, path)) <==> !Ambiguous(server + path)
  {
    hide Ambiguous, UpToSlash;
    var r := server + path;
    ApartUnless(r);
    SlashAt(server, path);
    assert r[|server|] == '/';
    assert r[|server|..] == path;
    AtTheFront(r);
    NoSchemeBefore(r);
  }

  /** A location without a scheme of its own. */
  lemma AtTheFront(r: string)
    requires !Avoids(r, '/')
    ensures var later := TakeApart("//" + r);
      TakeApart("://" + r) == Some(if later.Some? then (":" + later.value.0, later.value.1, later.value.2)
                                   else ("", UpToSlash(r), r[|UpToSlash(r)|..]))
  {
    hide UpToSlash, Avoids;
    var s := "://" + r;
    assert s[3..] == r && s[1..] == "//" + r;
    assert s[3 + |UpToSlash(r)|..] == r[|UpToSlash(r)|..];
  }

  /** Two slashes begin no scheme. */
  lemma NoSchemeBefore(r: string)
    ensures var t := TakeApart(r);
      TakeApart("//" + r) == if t == None then None else Some(("//" + t.value.0, t.value.1, t.value.2))
  {
    assert ("//" + r)[1..] == "/" + r && ("/" + r)[1..] == r;
    var t := TakeApart(r);
    if t.Some? {
      assert TakeApart("/" + r) == Some(("/" + t.value.0, t.value.1, t.value.2));
      assert "/" + ("/" + t.value.0) == "//" + t.value.0;
    } else {
      assert TakeApart("/" + r) == None;
    }
  }

  // ----- Saving and reading a target

  /** A setting that was there takes the value; a new one is made only for a value. */
  function Updated(before: Option<string>, value: string): Option<string> {
    if before.Some? || value != "" then Some(value) else None
  }

  function Absolute(path: string): string {
    if StartsWith(path, "/") then path else "/" + path
  }

  function PathOf(path: string): string {
    Absolute(if path == "" then "/var/crash" else path)
  }

  function LocationOf(t: Target): string {
    match t
    case Local(path) => "file://" + PathOf(if path.Some? then path.value else "")
    case Nfs(server, export_, path) => "nfs://" + server + Absolute(export_) + if path == "" then "" else PathOf(path)
    case Remote(scheme, server, path, _) => scheme + "://" + server + PathOf(path)
  }

  function Persist(s: Saved, t: Target): Saved {
    var identity := if t.Remote? && t.sshkey.Some? then Updated(s.identity, t.sshkey.value) else s.identity;
    Saved(Updated(s.savedir, LocationOf(t)), identity)
  }

  /** Nothing for a location that cannot be taken apart. */
  function Extract(s: Saved): Option<Target> {
    if s.savedir == None || s.savedir.value == "" then Some(Local(None))
    else
      var dir := if StartsWith(s.savedir.value, "/") then "file://" + s.savedir.value else s.savedir.value;
      var parts := TakeApart(dir);
      if parts == None then None
      else
        var (scheme, server, path) := parts.value;
        Some(if scheme == "file" then Local(Some(path))
             else if scheme == "nfs" then Nfs(server, path, "")
             else Remote(scheme, server, path, s.identity))
  }

  /** A location reads back with its scheme exactly if what follows the scheme is not ambiguous. */
  lemma LocationReads(scheme: string, rest: string)
    requires !Avoids(rest, '/')
    ensures var t := TakeApart(scheme + "://" + rest);
      && t.Some?
      && if Ambiguous(rest) then |t.value.0| >= |scheme| + 3
         else t.value == (scheme, UpToSlash(rest), rest[|UpToSlash(rest)|..])
  {
    hide Avoids, Ambiguous, UpToSlash, TakeApart;
    SlashIs(rest);
    var server := UpToSlash(rest);
    var path := rest[|server|..];
    assert rest == server + path;
    Regrouped(scheme + "://", server, path);
    ApartRoundTrip(scheme, server, path);
    if Ambiguous(rest) {
      LaterScheme(scheme, rest);
    }
  }

  /** An ambiguous location reads back with a longer scheme. */
  lemma {:induction false} LaterScheme(scheme: string, rest: string)
    requires Ambiguous(rest)
    ensures var t := TakeApart(scheme + "://" + rest); t.Some? && |t.value.0| >= |scheme| + 3
  {
    hide Avoids, UpToSlash, Ambiguous;
    ApartUnless(rest);
    var s := scheme + "://" + rest;
    if scheme == "" {
      assert s == "://" + rest && s[1..] == "//" + rest;
      NoSchemeBefore(rest);
    } else {
      LaterScheme(scheme[1..], rest);
      assert s[1..] == scheme[1..] + "://" + rest;
    }
  }

  /** A local target comes back exactly if its path is absolute and holds no other location. */
  lemma LocalRoundTrip(s: Saved, path: string)
    ensures Extract(Persist(s, Local(Some(path)))) == Some(Local(Some(path)))
      <==> StartsWith(path, "/") && !Ambiguous(path)
  {
    hide Avoids, Ambiguous, UpToSlash, TakeApart;
    var p := PathOf(path);
    AbsoluteIs(if path == "" then "/var/crash" else path);
    assert "file://" + p == "file" + "://" + p;
    SlashThere("", p);
    EmptyAvoids('/');
    assert "" + p == p && p[0..] == p;
    SchemeFirst("file", p);
    LocationReads("file", p);
  }

  lemma AbsoluteIs(path: string)
    ensures var p := Absolute(path);
      && p != "" && p[0] == '/' && (p == path <==> StartsWith(path, "/")) && |p| >= |path| && (|p| == |path| ==> p == path)
  {
  }

  lemma SlashThere(server: string, path: string)
    requires path != "" && path[0] == '/'
    ensures !Avoids(server + path, '/')
    ensures Avoids(server, '/') <==> UpToSlash(server + path) == server
    ensures Avoids(server, '/') ==> (server + path)[|server|..] == path
  {
    assert (server + path)[|server|] == '/';
    SlashIs(server + path);
    if Avoids(server, '/') {
      SlashAt(server, path);
    }
  }

  /** An nfs target comes back with its path merged into its export exactly if the server has no "/", the export
      is absolute, the path is absolute or empty, and no other location begins in them. */
  lemma NfsRoundTrip(s: Saved, server: string, export_: string, path: string)
    ensures Extract(Persist(s, Nfs(server, export_, path))) == Some(Nfs(server, export_ + path, ""))
      <==> && Avoids(server, '/') && StartsWith(export_, "/") && (path == "" || StartsWith(path, "/"))
           && !Ambiguous(server + (export_ + path))
  {
    hide Avoids, Ambiguous, UpToSlash, TakeApart, Absolute;
    var e, p := Absolute(export_), if path == "" then "" else PathOf(path);
    AbsoluteIs(export_);
    AbsoluteIs(path);
    var rest := server + (e + p);
    SlashThere(server, e + p);
    assert "nfs://" + server + e + p == "nfs" + "://" + rest;
    LocationReads("nfs", rest);
    if e + p == export_ + path {
      assert |e| == |export_| && |p| == |path|;
    }
  }

  /** Any other target comes back exactly if its scheme is its own, the server has no "/", the path is absolute,
      no other location begins in them, and the key of the target is the one that will be saved. */
  lemma RemoteRoundTrip(s: Saved, scheme: string, server: string, path: string, sshkey: Option<string>)
    ensures Extract(Persist(s, Remote(scheme, server, path, sshkey))) == Some(Remote(scheme, server, path, sshkey))
      <==> && scheme != "file" && scheme != "nfs" && !StartsWith(scheme, "/")
           && Avoids(server, '/') && StartsWith(path, "/") && !Ambiguous(server + path)
           && (if sshkey == None then s.identity == None else s.identity.Some? || sshkey.value != "")
  {
    hide Avoids, Ambiguous, UpToSlash, TakeApart;
    var p := PathOf(path);
    AbsoluteIs(if path == "" then "/var/crash" else path);
    var rest := server + p;
    SlashThere(server, p);
    Regrouped(scheme + "://", server, p);
    LocationReads(scheme, rest);
    if StartsWith(scheme, "/") {
      assert "file://" + (scheme + "://" + rest) == "file://" + scheme + "://" + rest;
      LocationReads("file://" + scheme, rest);
    } else {
      SchemeFirst(scheme, rest);
    }
  }

  lemma SchemeFirst(scheme: string, rest: string)
    ensures StartsWith(scheme + "://" + rest, "/") <==> StartsWith(scheme, "/")
  {
    var dir := scheme + "://" + rest;
    assert dir == scheme + ("://" + rest);
    BeginsWith(dir);
    BeginsWith(scheme);
    assert dir[0] == if scheme == "" then ':' else scheme[0];
  }

  lemma BeginsWith(s: string)
    ensures StartsWith(s, "/") <==> s != "" && s[0] == '/'
  {
  }
}
