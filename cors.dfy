/** Choice of the CORS allowed origins from ENVIRONMENT and ALLOWED_HOSTS (main.py:33-34, 61-64). */
module Cors {
  import opened Options

  /** The values used when ENVIRONMENT and ALLOWED_HOSTS are not set. */
  const DefaultEnvironment: string := "development"
  const DefaultAllowedHosts: string := "*"
  const Production: string := "production"
  const Wildcard: string := "*"

  /** Python's `s.split(sep)` with an explicit separator: the pieces between separators,
      empty pieces included, so there is always at least one. */
  function Split(s: string, sep: char): (pieces: seq<string>)
    ensures |pieces| >= 1
  {
    if s == [] then [""]
    else if s[0] == sep then [""] + Split(s[1..], sep)
    else
      var rest := Split(s[1..], sep);
      [[s[0]] + rest[0]] + rest[1..]
  }

  /** Python's `sep.join(pieces)`. */
  function Join(pieces: seq<string>, sep: char): string
    requires |pieces| >= 1
  {
    if |pieces| == 1 then pieces[0] else pieces[0] + [sep] + Join(pieces[1..], sep)
  }

  /** Joining the pieces with the separator gives back the original text. */
  lemma {:induction false} JoinSplit(s: string, sep: char)
    ensures Join(Split(s, sep), sep) == s
  {
    if s != [] {
      JoinSplit(s[1..], sep);
      var rest := Split(s[1..], sep);
      if s[0] == sep {
        assert ([""] + rest)[1..] == rest;
        assert s == [sep] + s[1..];
      } else {
        var first := [s[0]] + rest[0];
        var pieces := [first] + rest[1..];
        if |rest| == 1 {
          assert s == [s[0]] + s[1..];
        } else {
          assert pieces[1..] == rest[1..];
          assert Join(rest, sep) == rest[0] + [sep] + Join(rest[1..], sep);
          assert s == [s[0]] + s[1..];
        }
      }
    }
  }

  /** No piece contains the separator. */
  lemma {:induction false} SplitPiecesHaveNoSeparator(s: string, sep: char)
    ensures forall i :: 0 <= i < |Split(s, sep)| ==> sep !in Split(s, sep)[i]
  {
    if s != [] {
      SplitPiecesHaveNoSeparator(s[1..], sep);
      var rest := Split(s[1..], sep);
      if s[0] != sep {
        assert forall c :: c in [s[0]] + rest[0] ==> c == s[0] || c in rest[0];
      }
    }
  }

  /** The split is the single piece "*" exactly when the text itself is "*". */
  lemma SplitIsWildcard(s: string)
    ensures Split(s, ',') == [Wildcard] <==> s == Wildcard
  {
    if Split(s, ',') == [Wildcard] {
      JoinSplit(s, ',');
    }
    if s == Wildcard {
      assert s[0] == '*' && s[1..] == [];
      assert Split(s[1..], ',') == [""];
      assert ['*'] + "" == Wildcard;
      assert Split(s, ',') == [Wildcard];
    }
  }

  /** ALLOWED_HOSTS: the environment value (or "*" when unset) split on commas. */
  function AllowedHosts(allowedHostsVar: Option<string>): (hosts: seq<string>)
    ensures |hosts| >= 1
    ensures Join(hosts, ',') == allowedHostsVar.GetOr(DefaultAllowedHosts)
    ensures forall i :: 0 <= i < |hosts| ==> ',' !in hosts[i]
  {
    var hosts := Split(allowedHostsVar.GetOr(DefaultAllowedHosts), ',');
    JoinSplit(allowedHostsVar.GetOr(DefaultAllowedHosts), ',');
    SplitPiecesHaveNoSeparator(allowedHostsVar.GetOr(DefaultAllowedHosts), ',');
    hosts
  }

  /** The origins given to the CORS middleware: in production the configured hosts, none at
      all when they are only the wildcard; elsewhere every origin. */
  function Origins(environment: string, allowedHosts: seq<string>): (origins: seq<string>)
    ensures environment == Production && allowedHosts == [Wildcard] ==> origins == []
    ensures environment == Production && allowedHosts != [Wildcard] ==> origins == allowedHosts
    ensures environment != Production ==> origins == [Wildcard]
  {
    if environment == Production then
      if allowedHosts != [Wildcard] then allowedHosts else []
    else [Wildcard]
  }

  /** The origins as a function of the two environment variables. */
  lemma OriginsFromEnvironment(environmentVar: Option<string>, allowedHostsVar: Option<string>)
    ensures var origins := Origins(environmentVar.GetOr(DefaultEnvironment), AllowedHosts(allowedHostsVar));
      && (environmentVar != Some(Production) ==> origins == [Wildcard])
      && (environmentVar == Some(Production) && allowedHostsVar.GetOr(DefaultAllowedHosts) == Wildcard ==> origins == [])
      && (environmentVar == Some(Production) && allowedHostsVar.GetOr(DefaultAllowedHosts) != Wildcard ==>
            |origins| >= 1 && Join(origins, ',') == allowedHostsVar.GetOr(DefaultAllowedHosts))
  {
  }
}
