/**
  Reading a Shadowsocks URI twice: as the probe does, and as the config renderer does. Percent
  and base64 decoding, and the reading of a port, are parameters.
 */
module SsUri {
  import opened Wrappers

  /** The library calls both sides make. */
  datatype Library = Library(
    unquote: string -> string,
    base64: (string, bool) -> Option<string>,
    parseInt: string -> Option<int>
  )

  predicate StartsWith(s: string, prefix: string) { prefix <= s }

  /** What is relied on: percent decoding leaves nothing from nothing, and a plain "plugin=" alone. */
  ghost predicate Sane(lib: Library) {
    && lib.unquote("") == ""
    && forall s: string :: StartsWith(s, "plugin=") ==> StartsWith(lib.unquote(s), "plugin=")
  }

  function RemovePrefix(s: string, prefix: string): string {
    if StartsWith(s, prefix) then s[|prefix|..] else s
  }

  /** `partition`: in front of the first separator and behind it. */
  function Partition(s: string, sep: char): (string, string) {
    if s == "" then ("", "")
    else if s[0] == sep then ("", s[1..])
    else
      var rest := Partition(s[1..], sep);
      ([s[0]] + rest.0, rest.1)
  }

  /** `rpartition`, for a separator that occurs: around the last one. */
  function RPartition(s: string, sep: char): (string, string) {
    if s == "" then ("", "")
    else if s[|s| - 1] == sep then (s[..|s| - 1], "")
    else
      var rest := RPartition(s[..|s| - 1], sep);
      (rest.0, rest.1 + [s[|s| - 1]])
  }

  /** `_b64decode`, the same text in both files. */
  function B64Decode(data: string, lib: Library): Option<string> {
    var plain := if '%' in data then lib.unquote(data) else data;
    var padded := plain + seq((4 - |plain| % 4) % 4, i => '=');
    if lib.base64(padded, false).Some? then lib.base64(padded, false) else lib.base64(padded, true)
  }

  const AEAD_METHODS := {"aes-128-gcm", "aes-192-gcm", "aes-256-gcm", "chacha20-ietf-poly1305"}

  const RENDERED_METHODS := AEAD_METHODS + {
    "2022-blake3-aes-128-gcm", "2022-blake3-aes-256-gcm", "2022-blake3-chacha20-poly1305",
    "xchacha20-ietf-poly1305", "aes-128-cfb", "aes-192-cfb", "aes-256-cfb",
    "aes-128-ctr", "aes-192-ctr", "aes-256-ctr", "camellia-128-cfb", "camellia-192-cfb",
    "camellia-256-cfb", "chacha20-ietf", "xchacha20", "salsa20", "rc4", "rc4-md5", "none"
  }

  // ----- The probe -----

  datatype Params = Params(cipher: string, password: string, plugin: Option<string>)

  /** The part in front of the fragment, split at its query. */
  function Split(uri: string): (string, string) {
    Partition(Partition(RemovePrefix(uri, "ss://"), '#').0, '?')
  }

  /** The raw method and password `_ss_params` finds, if it gets that far. */
  function ProbePair(body: string, lib: Library): Option<(string, string)> {
    if '@' in body then
      var userinfo := Partition(body, '@').0;
      if ':' in userinfo then Some(Partition(userinfo, ':'))
      else
        var decoded := B64Decode(userinfo, lib);
        if decoded.None? then None else Some(Partition(decoded.value, ':'))
    else
      var decoded := B64Decode(body, lib);
      if decoded.None? then None
      else
        var userinfo := Partition(decoded.value, '@').0;
        if userinfo == "" then None else Some(Partition(userinfo, ':'))
  }

  /** `_ss_params`; `None` is its ValueError. */
  function ProbeParams(uri: string, lib: Library): Option<Params> {
    var (body, rawQuery) := Split(uri);
    var query := lib.unquote(rawQuery);
    var plugin := if StartsWith(query, "plugin=") then Some(query[7..]) else None;
    var pair := ProbePair(body, lib);
    if pair.None? || pair.value.0 == "" || pair.value.1 == "" then None
    else Some(Params(lib.unquote(pair.value.0), lib.unquote(pair.value.1), plugin))
  }

  /** `probeable`, for a Shadowsocks node. */
  predicate Probeable(uri: string, lib: Library) {
    var params := ProbeParams(uri, lib);
    params.Some? && params.value.plugin.None? && params.value.cipher in AEAD_METHODS
  }

  // ----- The renderer -----

  datatype Fault = NotBase64 | NoUserinfo | NoPair | BadAuthority | UnknownMethod

  datatype Outbound =
    | Outbound(server: string, port: int, cipher: string, password: string, plugin: string, pluginOpts: string)
    | Rejected(fault: Fault)

  /** `_host_port`; `None` is its ValueError, or that of the port. */
  function HostPort(netloc: string, defaultPort: int, lib: Library): Option<(string, int)> {
    var authority := if '@' in netloc then RPartition(netloc, '@').1 else netloc;
    var bracketed := StartsWith(authority, "[");
    if bracketed && ']' !in authority then None
    else
      var (host, port) :=
        if bracketed then
          var (inside, rest) := Partition(authority, ']');
          (inside, if StartsWith(rest, ":") then rest[1..] else "")
        else if ':' in authority then RPartition(authority, ':')
        else (authority, "");
      if host == "" then None
      else if port == "" then Some((lib.unquote(host), defaultPort))
      else if lib.parseInt(port).None? then None
      else Some((lib.unquote(host), lib.parseInt(port).value))
  }

  datatype Login = Login(cipher: string, password: string, authority: string) | Fails(fault: Fault)

  /** The userinfo and authority `_build_shadowsocks` works from. */
  function RenderLogin(body: string, lib: Library): Login {
    if '@' in body then
      var (userinfo, authority) := Partition(body, '@');
      var decoded := if ':' in userinfo then Some(userinfo) else B64Decode(userinfo, lib);
      if decoded.None? then Fails(NotBase64)
      else
        var (cipher, password) := Partition(decoded.value, ':');
        if cipher == "" || password == "" then Fails(NoPair) else Login(cipher, password, authority)
    else
      var decoded := B64Decode(body, lib);
      if decoded.None? then Fails(NotBase64)
      else
        var (userinfo, authority) := Partition(decoded.value, '@');
        if userinfo == "" then Fails(NoUserinfo)
        else
          var (cipher, password) := Partition(userinfo, ':');
          Login(cipher, password, authority)
  }

  /** `_build_shadowsocks`, its port 8388 by default. */
  function Render(uri: string, lib: Library): Outbound {
    var (body, query) := Split(uri);
    var plugin := if StartsWith(query, "plugin=") then lib.unquote(Partition(query, '=').1) else "";
    var login := RenderLogin(body, lib);
    if login.Fails? then Rejected(login.fault)
    else
      var place := HostPort(login.authority, 8388, lib);
      if place.None? then Rejected(BadAuthority)
      else if lib.unquote(login.cipher) !in RENDERED_METHODS then Rejected(UnknownMethod)
      else
        var (name, opts) := Partition(plugin, ';');
        Outbound(place.value.0, place.value.1, lib.unquote(login.cipher), lib.unquote(login.password),
                 lib.unquote(name), if opts == "" then "" else lib.unquote(opts))
  }

  // ----- The two readings -----

  /** Where both find a login, it is the same one; and the probe never finds one the renderer misses. */
  lemma SameLogin(body: string, lib: Library)
    ensures var pair, login := ProbePair(body, lib), RenderLogin(body, lib);
            && (login.Login? ==> pair == Some((login.cipher, login.password)))
            && (pair.Some? && pair.value.0 != "" && pair.value.1 != "" ==> login.Login?)
  {
  }

  /**
    Every URI the probe certifies is rendered with the probe's exact method and password and no
    plugin, or fails on the host and port the probe does not read; over all three URI shapes.
   */
  lemma CertifiedRendersAlike(uri: string, lib: Library)
    requires Sane(lib) && Probeable(uri, lib)
    ensures var params, out := ProbeParams(uri, lib).value, Render(uri, lib);
            out == Rejected(BadAuthority)
            || (out.Outbound? && out.cipher == params.cipher && out.password == params.password
                && out.plugin == "" && out.pluginOpts == "")
    ensures var login := RenderLogin(Split(uri).0, lib);
            login.Login?
            && (Render(uri, lib) == Rejected(BadAuthority) <==> HostPort(login.authority, 8388, lib).None?)
  {
    var (body, query) := Split(uri);
    SameLogin(body, lib);
    assert Partition("", ';') == ("", "");
  }

  /**
    The other way round the two part in exactly two places: a rendered AEAD node without plugin
    is certified if and only if its password is not empty and its query does not turn into a
    plugin once percent-decoded.
   */
  lemma RenderedIsCertifiedIff(uri: string, lib: Library)
    requires Sane(lib) && Render(uri, lib).Outbound? && Render(uri, lib).cipher in AEAD_METHODS
    ensures Probeable(uri, lib) <==>
            RenderLogin(Split(uri).0, lib).password != "" && !StartsWith(lib.unquote(Split(uri).1), "plugin=")
  {
    var (body, query) := Split(uri);
    SameLogin(body, lib);
    assert "" !in AEAD_METHODS;
  }
}
