/** What a config that loads promises of its routes (crates/core/src/config.rs), said of
    their own fields. */
module Loading {
  import opened Basics
  import opened Model
  import opened Text
  import opened Layers
  import G = Groups

  /** The provider is the console, or one whose settings are there. */
  predicate IsSetUp(p: Providers, name: string) {
    || name == "console"
    || (name == "slack" && p.slack.Some?)
    || (name == "webhook" && p.webhook.Some?)
    || (name == "pagerduty" && p.pagerduty.Some?)
    || (name == "teams" && p.teams.Some?)
    || (name == "opsgenie" && p.opsgenie.Some?)
    || (name == "email" && p.email.Some?)
  }

  lemma KnownIffSetUp(p: Providers, name: string)
    ensures name in KnownNames(p) <==> IsSetUp(p, name)
  {
  }

  /** A dotted path: it neither starts nor ends with a dot, and no two stand together. */
  predicate IsPath(path: string) {
    && path != "" && path[0] != '.' && path[|path| - 1] != '.'
    && forall i | 0 <= i < |path| - 1 :: !(path[i] == '.' && path[i + 1] == '.')
  }

  predicate AllFull(parts: seq<string>) {
    forall part :: part in parts ==> part != ""
  }

  lemma SplitNext(s: string, c: char) returns (first: string, rest: string)
    requires c in s
    ensures c !in first && s == first + [c] + rest && Split(s, c) == [first] + Split(rest, c)
  {
    IndexOfChar(s, c);
    first, rest := s[..IndexOf(s, [c])], s[IndexOf(s, [c]) + 1..];
  }

  lemma OneMoreFull(first: string, more: seq<string>)
    ensures AllFull([first] + more) <==> first != "" && AllFull(more)
  {
    assert ([first] + more)[0] == first;
    if AllFull([first] + more) {
      assert first in [first] + more;
      forall part | part in more ensures part != "" {
        assert part in [first] + more;
      }
    }
  }

  lemma {:induction false} PathIffFullParts(path: string)
    ensures AllFull(Split(path, '.')) <==> IsPath(path)
    decreases |path|
  {
    if '.' in path {
      var first, rest := SplitNext(path, '.');
      PathIffFullParts(rest);
      OneMoreFull(first, Split(rest, '.'));
      PartsOfPath(first, rest);
    } else {
      SplitOfOne(path, '.');
      OneMoreFull(path, []);
      assert [path] + [] == [path];
      NoDots(path);
    }
  }

  lemma NoDots(path: string)
    requires '.' !in path
    ensures IsPath(path) <==> path != ""
  {
  }

  lemma PartsOfPath(first: string, rest: string)
    requires '.' !in first
    ensures IsPath(first + ['.'] + rest) <==> first != "" && IsPath(rest)
  {
    var path, n := first + ['.'] + rest, |first|;
    assert path[n] == '.';
    assert forall i | 0 <= i < |rest| :: path[n + 1 + i] == rest[i];
    if first != "" && IsPath(rest) {
      forall i | 0 <= i < |path| - 1 ensures !(path[i] == '.' && path[i + 1] == '.') {
        assert i > n ==> path[i] == rest[i - n - 1] && path[i + 1] == rest[i - n];
      }
    }
    if IsPath(path) && rest != "" {
      forall i | 0 <= i < |rest| - 1 ensures !(rest[i] == '.' && rest[i + 1] == '.') {
        assert !(path[n + 1 + i] == '.' && path[n + 2 + i] == '.');
      }
    }
  }

  predicate IsSignalField(field: string) {
    || field == "source" || field == "service" || field == "component" || field == "event_type"
    || field == "severity" || field == "title" || field == "environment" || field == "team"
    || field == "run_id" || field == "correlation_id" || field == "dedup_key"
  }

  lemma GroupFieldOnText(field: string)
    ensures IsGroupField(field) <==> IsSignalField(field) || ("metadata." <= field && IsPath(field[9..]))
  {
    if "metadata." <= field {
      PathIffFullParts(field[9..]);
    }
  }

  /** A route that can be used. */
  predicate Usable(route: Route, p: Providers) {
    && route.providers != [] && (forall name | name in route.providers :: IsSetUp(p, name))
    && (route.dedup.Some? ==> route.dedup.value > 0)
    && (route.rateLimit.Some? ==> route.rateLimit.value.max > 0 && route.rateLimit.value.per > 0)
    && (route.groupWait.Some? ==> route.groupWait.value > 0)
    && (route.groupBy.Some? ==> forall field | field in route.groupBy.value ::
          IsSignalField(field) || ("metadata." <= field && IsPath(field[9..])))
  }

  /** A merged config passes its checks iff each of its routes can be used. */
  lemma LoadsIffUsable(config: Config)
    ensures RoutesOk(config) <==> forall i | 0 <= i < |config.routes| :: Usable(config.routes[i], config.providers)
  {
    forall i | 0 <= i < |config.routes|
      ensures RouteOk(config.routes[i], KnownNames(config.providers)) <==> Usable(config.routes[i], config.providers)
    {
      OkIffUsable(config.routes[i], config.providers);
    }
  }

  lemma OkIffUsable(route: Route, p: Providers)
    ensures RouteOk(route, KnownNames(p)) <==> Usable(route, p)
  {
    forall name | name in route.providers ensures name in KnownNames(p) <==> IsSetUp(p, name) {
      KnownIffSetUp(p, name);
    }
    if route.groupBy.Some? {
      forall field | field in route.groupBy.value
        ensures IsGroupField(field) <==> IsSignalField(field) || ("metadata." <= field && IsPath(field[9..]))
      {
        GroupFieldOnText(field);
      }
    }
  }

  /* ----- what grouping by a field can do ----- */

  /** A signal that says `text` wherever it can say something. */
  function Saying(text: string, severity: Severity, path: string): Signal {
    Signal(0, text, Some(text), Some(text), text, severity, text, Some(text), Some(text), Some(text), Some(text),
           map[path := text], Some(text), Trigger)
  }

  /** Each field a config may group by tells some two signals apart; of the others, only paths
      with an empty part could, and no other text does. */
  lemma CheckedFieldsTellApart(field: string)
    ensures IsGroupField(field) ==> exists a, b :: !G.Agree(a, b, field)
    ensures !IsGroupField(field) && !("metadata." <= field) ==> forall a, b :: G.Agree(a, b, field)
  {
    GroupFieldOnText(field);
    if IsGroupField(field) {
      var path := if "metadata." <= field then field[9..] else "";
      var a, b := Saying("a", Info, path), Saying("b", Error, path);
      assert !G.Agree(a, b, field);
    }
  }
}
