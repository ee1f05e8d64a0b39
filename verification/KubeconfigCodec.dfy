/** A codec that meets what the kubeconfig sanitizer assumes of the real ones. */
module KubeconfigCodec {
  import opened Wrappers
  import opened KubeconfigSanitizer

  /** A text, marked character by character, up to a dot. */
  function Enclose(s: string): string {
    if s == "" then "." else ['x', s[0]] + Enclose(s[1..])
  }

  function Unclose(t: string): (r: Option<(string, string)>)
    ensures r.Some? ==> |r.value.1| < |t|
  {
    if t == "" then None
    else if t[0] == '.' then Some(("", t[1..]))
    else if |t| < 2 then None
    else
      match Unclose(t[2..])
      case None => None
      case Some((s, rest)) => Some(([t[1]] + s, rest))
  }

  lemma {:induction false} UncloseEnclosed(s: string, rest: string)
    ensures Unclose(Enclose(s) + rest) == Some((s, rest))
  {
    var t := Enclose(s) + rest;
    if s == "" {
      assert t[1..] == rest;
    } else {
      UncloseEnclosed(s[1..], rest);
      assert t[2..] == Enclose(s[1..]) + rest;
      assert s == [s[0]] + s[1..];
    }
  }

  function EncloseAll(parts: seq<string>): string {
    if parts == [] then "" else Enclose(parts[0]) + EncloseAll(parts[1..])
  }

  /** So many texts, one after the other. */
  function UncloseAll(t: string, n: nat): (r: Option<seq<string>>)
    ensures r.Some? ==> |r.value| == n
    decreases n
  {
    if n == 0 then Some([])
    else
      match Unclose(t)
      case None => None
      case Some((s, rest)) =>
        match UncloseAll(rest, n - 1)
        case None => None
        case Some(more) => Some([s] + more)
  }

  lemma {:induction false} UncloseAllEnclosed(parts: seq<string>)
    ensures UncloseAll(EncloseAll(parts), |parts|) == Some(parts)
  {
    if parts != [] {
      UncloseEnclosed(parts[0], EncloseAll(parts[1..]));
      UncloseAllEnclosed(parts[1..]);
      assert parts == [parts[0]] + parts[1..];
    }
  }

  function OfParts(p: seq<string>): Config
    requires |p| == 6
  {
    Rebuilt(p[0], p[1], p[2], Creds(p[3], p[4], p[5]))
  }

  ghost function PartsOf(cfg: Config): seq<string>
    requires exists p: seq<string> :: |p| == 6 && OfParts(p) == cfg
  {
    var p: seq<string> :| |p| == 6 && OfParts(p) == cfg;
    p
  }

  ghost function Written(cfg: Config): string {
    if exists p: seq<string> :: |p| == 6 && OfParts(p) == cfg then EncloseAll(PartsOf(cfg)) else ""
  }

  ghost function Loaded(raw: string): Option<Config> {
    var p := UncloseAll(raw, 6);
    if p.None? then None else Some(OfParts(p.value))
  }

  ghost function Plain(): Codec {
    Codec(
      raw => Loaded(raw),
      cfg => Written(cfg),
      data => var d := Unclose(data); if d.None? then None else Some((Certificate(d.value.0), d.value.1)),
      (b: Block) => Enclose(b.body),
      _ => Some(true),
      (_, _) => true,
      data => data == "",
      _ => true,
      _ => true)
  }

  lemma LoadsWritten(n: string, s: string, ca: string, creds: Creds)
    ensures Loaded(Written(Rebuilt(n, s, ca, creds))) == Some(Rebuilt(n, s, ca, creds))
  {
    var p := [n, s, ca, creds.certData, creds.keyData, creds.token];
    assert OfParts(p) == Rebuilt(n, s, ca, creds);
    UncloseAllEnclosed(PartsOf(Rebuilt(n, s, ca, creds)));
  }

  lemma Reloads()
    ensures var c := Plain();
            forall n, s, ca, creds: Creds :: c.load(c.write(Rebuilt(n, s, ca, creds))) == Some(Rebuilt(n, s, ca, creds))
  {
    var c := Plain();
    forall n, s, ca, creds: Creds
      ensures c.load(c.write(Rebuilt(n, s, ca, creds))) == Some(Rebuilt(n, s, ca, creds))
    {
      LoadsWritten(n, s, ca, creds);
    }
  }

  lemma Redecodes()
    ensures var c := Plain();
            forall body, rest :: c.decodePEM(c.encodePEM(Certificate(body)) + rest) == Some((Certificate(body), rest))
  {
    var c := Plain();
    forall body, rest
      ensures c.decodePEM(c.encodePEM(Certificate(body)) + rest) == Some((Certificate(body), rest))
    {
      UncloseEnclosed(body, rest);
    }
  }

  /** The assumptions can be met. */
  lemma PlainIsLawful()
    ensures Plain().Lawful()
  {
    Reloads();
    Redecodes();
  }
}
