/**
 The URL object that parsing fills field by field, and the buffer that printing appends to,
 proved against the functions on values.
 */
module UrlObject {
  import opened Wrappers
  import opened GoUrl

  /** The scan for a scheme, one byte at a time. */
  method SchemeLoop(raw: Text) returns (r: Result<(Text, Text)>)
    ensures r == GetScheme(raw)
  {
    for i := 0 to |raw|
      invariant ScanScheme(raw, 0) == ScanScheme(raw, i)
    {
      var ch := raw[i];
      if !IsLetter(ch) {
        if IsDigit(ch) || ch in {0x2B, 0x2D, 0x2E} {
          if i == 0 {
            return Ok(([], raw));
          }
        } else if ch == COLON {
          if i == 0 {
            return Err;
          }
          return Ok((LowerAll(raw[..i]), raw[i + 1..]));
        } else {
          return Ok(([], raw));
        }
      }
    }
    r := Ok(([], raw));
  }

  method HostStep(host: Text) returns (r: Result<Text>)
    ensures r == ParseHost(host)
  {
    if host != [] && host[0] == LEFT {
      var i := FindLast(host, RIGHT);
      if i < 0 {
        return Err;
      }
      var colonPort := host[i + 1..];
      if colonPort != [] && !ValidOptionalPort(colonPort) {
        return Err;
      }
    } else {
      var colon := FindLast(host, COLON);
      if colon != -1 && !ValidOptionalPort(host[colon..]) {
        return Err;
      }
    }
    var u := UnescapeLoop(host, Host);
    r := ToResult(u);
  }

  method UserinfoStep(s: Text) returns (r: Result<Userinfo>)
    ensures r == ParseUserinfo(s)
  {
    var i := Find(s, COLON);
    if i == |s| {
      var name := UnescapeLoop(s, UserPassword);
      return if name.Plain? then Ok(Userinfo(name.text, [], false)) else Err;
    }
    var name := UnescapeLoop(s[..i], UserPassword);
    var word := UnescapeLoop(s[i + 1..], UserPassword);
    r := if name.Plain? && word.Plain? then Ok(Userinfo(name.text, word.text, true)) else Err;
  }

  method AuthorityStep(s: Text) returns (r: Result<(Option<Userinfo>, Text)>)
    ensures r == ParseAuthority(s)
  {
    var i := FindLast(s, AT);
    if i < 0 {
      var host := HostStep(s);
      return if host.Ok? then Ok((None, host.value)) else Err;
    }
    var host := HostStep(s[i + 1..]);
    if host.Err? {
      return Err;
    }
    var user := UserinfoStep(s[..i]);
    r := if user.Ok? then Ok((Some(user.value), host.value)) else Err;
  }

  // The printed body in three parts: what precedes the path, a slash where one is missing, the path.

  ghost function Front(scheme: Text, b: Body): Text {
    if scheme != [] || b.host != [] || b.user.Some? then
      (if b.host != [] || b.path != [] || b.user.Some? then [SLASH, SLASH] else []) + PrintAuthority(b)
    else []
  }

  ghost function Between(b: Body): Text {
    var path := EscapedPath(b);
    if path != [] && path[0] != SLASH && b.host != [] then [SLASH] else []
  }

  lemma PrintedInParts(scheme: Text, b: Body)
    requires b.opaque_ == []
    ensures PrintBody(scheme, b) == Front(scheme, b) + Between(b) + EscapedPath(b)
  {
  }

  class Url {
    var scheme: Text
    var opaque_: Text
    var user: Option<Userinfo>
    var host: Text
    var path: Text
    var rawPath: Text
    var forceQuery: bool
    var rawQuery: Text
    var fragment: Text
    var rawFragment: Text

    ghost function Value(): GoUrl
      reads this
    {
      GoUrl(scheme, opaque_, user, host, path, rawPath, forceQuery, rawQuery, fragment, rawFragment)
    }

    constructor ()
      ensures Value() == GoUrl([], [], None, [], [], [], false, [], [], [])
    {
      scheme, opaque_, user, host, path, rawPath := [], [], None, [], [], [];
      forceQuery, rawQuery, fragment, rawFragment := false, [], [], [];
    }

    /** Cut the query off, remembering a lone trailing question mark. */
    method TakeQuery(rest: Text) returns (text: Text)
      modifies this`forceQuery, this`rawQuery
      ensures SplitQuery(rest) == (text, forceQuery, rawQuery)
    {
      var i := Find(rest, QUESTION);
      text := rest[..i];
      assert rest[..|rest|] == rest;
      forceQuery := i < |rest| && i == |rest| - 1;
      rawQuery := if i < |rest| - 1 then rest[i + 1..] else [];
    }

    method TakePath(rest: Text) returns (raised: bool)
      requires opaque_ == []
      modifies this`path, this`rawPath
      ensures raised <==> ParsePath(user, host, rest).Err?
      ensures !raised ==> ParsePath(user, host, rest) == Ok(BodyOf(Value()))
    {
      var u := UnescapeLoop(rest, Path);
      if !u.Plain? {
        return true;
      }
      path := u.text;
      var e := EscapeLoop(path, Path);
      rawPath := if e != rest then rest else [];
      raised := false;
    }

    /** Fill what stands between the scheme and the query. */
    method TakeBody(rest: Text) returns (raised: bool)
      requires BodyOf(Value()) == Body([], None, [], [], [])
      modifies this`opaque_, this`user, this`host, this`path, this`rawPath
      ensures raised <==> ParseBody(scheme, rest).Err?
      ensures !raised ==> ParseBody(scheme, rest) == Ok(BodyOf(Value()))
    {
      var tail := rest;
      if !Starts(rest, [SLASH]) {
        if scheme != [] {
          opaque_ := rest;
          return false;
        }
        if !Lacks(rest[..Find(rest, SLASH)], COLON) {
          return true;
        }
      }
      if (scheme != [] || !Starts(rest, [SLASH, SLASH, SLASH])) && Starts(rest, [SLASH, SLASH]) {
        tail := rest[2..];
        var i := Find(tail, SLASH);
        var authority := AuthorityStep(tail[..i]);
        if authority.Err? {
          return true;
        }
        tail := tail[i..];
        user, host := authority.value.0, authority.value.1;
      }
      raised := TakePath(tail);
    }

    /** Fill everything but the fragment. */
    method TakeRest(rest: Text) returns (raised: bool)
      requires Value() == GoUrl([], [], None, [], [], [], false, [], [], [])
      modifies this
      ensures raised <==> ParseRest(rest).Err?
      ensures !raised ==> ParseRest(rest) == Ok(Value())
    {
      var s := SchemeLoop(rest);
      if s.Err? {
        return true;
      }
      scheme := s.value.0;
      var text := TakeQuery(s.value.1);
      raised := TakeBody(text);
    }

    /** Append the pieces of the URL to a buffer. */
    method ToText() returns (buf: Text)
      ensures buf == Print(Value())
    {
      buf := RestText();
      if fragment != [] {
        var e := FragmentText();
        buf := buf + ([HASH] + e);
      }
    }

    method RestText() returns (buf: Text)
      ensures buf == PrintRest(Value())
    {
      buf := [];
      if scheme != [] {
        buf := scheme + [COLON];
      }
      var body := BodyText();
      buf := buf + body;
      if forceQuery || rawQuery != [] {
        buf := buf + ([QUESTION] + rawQuery);
      }
    }

    method BodyText() returns (buf: Text)
      ensures buf == PrintBody(scheme, BodyOf(Value()))
    {
      ghost var b := BodyOf(Value());
      if opaque_ != [] {
        return opaque_;
      }
      PrintedInParts(scheme, b);
      buf := FrontText();
      assert buf == Front(scheme, b);
      var p := PathText();
      if p != [] && p[0] != SLASH && host != [] {
        buf := buf + [SLASH];
      }
      assert buf == Front(scheme, b) + Between(b);
      buf := buf + p;
    }

    method FrontText() returns (buf: Text)
      ensures buf == Front(scheme, BodyOf(Value()))
    {
      buf := [];
      if scheme != [] || host != [] || user.Some? {
        if host != [] || path != [] || user.Some? {
          buf := [SLASH, SLASH];
        }
        var authority := AuthorityText();
        buf := buf + authority;
      }
    }

    method AuthorityText() returns (buf: Text)
      ensures buf == PrintAuthority(BodyOf(Value()))
    {
      buf := [];
      if user.Some? {
        buf := EscapeLoop(user.value.username, UserPassword);
        if user.value.passwordSet {
          var word := EscapeLoop(user.value.password, UserPassword);
          buf := buf + ([COLON] + word);
        }
        buf := buf + [AT];
      }
      if host != [] {
        var h := EscapeLoop(host, Host);
        buf := buf + h;
      }
    }

    method PathText() returns (p: Text)
      ensures p == EscapedPath(BodyOf(Value()))
    {
      if rawPath != [] {
        var u := UnescapeLoop(rawPath, Path);
        if u == Plain(path) {
          return rawPath;
        }
      }
      p := EscapeLoop(path, Path);
    }

    method FragmentText() returns (f: Text)
      ensures f == EscapedFragment(Value())
    {
      if rawFragment != [] {
        var u := UnescapeLoop(rawFragment, Fragment);
        if u == Plain(fragment) {
          return rawFragment;
        }
      }
      f := EscapeLoop(fragment, Fragment);
    }
  }

  /** Parse into a fresh object. What it then prints parses to the same fields. */
  method ParseUrl(raw: Text) returns (raised: bool, u: Url)
    ensures fresh(u)
    ensures raised <==> Parse(raw).Err?
    ensures !raised ==> Parse(raw) == Ok(u.Value()) && Parse(Print(u.Value())) == Ok(u.Value())
  {
    u := new Url();
    if !NoControl(raw) {
      return true, u;
    }
    var i := Find(raw, HASH);
    raised := u.TakeRest(raw[..i]);
    if !raised && i < |raw| {
      raised := TakeFragment(u, raw[i + 1..]);
    }
    if !raised {
      UrlStable(raw, u.Value());
    }
  }

  method TakeFragment(u: Url, frag: Text) returns (raised: bool)
    modifies u`fragment, u`rawFragment
    ensures raised <==> AddFragment(old(u.Value()), Some(frag)).Err?
    ensures !raised ==> AddFragment(old(u.Value()), Some(frag)) == Ok(u.Value())
  {
    var d := UnescapeLoop(frag, Fragment);
    if !d.Plain? {
      return true;
    }
    u.fragment := d.text;
    var e := EscapeLoop(d.text, Fragment);
    u.rawFragment := if e != frag then frag else [];
    raised := false;
  }
}
