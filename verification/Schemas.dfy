/** Request contracts and the keep-alive consistency rules (app/schemas.py). */
module Schemas {
  import opened Common
  import opened Monitors
  import opened Urls
  import Net

  datatype RuleError =
    | EnabledInMonitorMode
    | DisabledInKeepAliveMode
    | IntervalRequired
    | IntervalForbidden
    | PathForbidden
    | PathNotRelative
    | PathTooLong
    | NameLength
    | IntervalRange
    | UrlInvalid
    | UrlForbidden

  /** A request field is omitted, an explicit null, or a value. */
  datatype Field<+T> = Absent | Null | Value(value: T)

  function Given<T>(f: Field<T>): Option<T> {
    match f
    case Value(v) => Some(v)
    case _ => None
  }

  predicate OccursAt(s: string, sub: string, i: int) {
    0 <= i <= |s| - |sub| && s[i..i + |sub|] == sub
  }

  predicate Contains(s: string, sub: string) {
    exists i | 0 <= i <= |s| :: OccursAt(s, sub, i)
  }

  lemma ContainsExactly(s: string, sub: string)
    ensures Contains(s, sub) <==> exists before, after :: s == before + sub + after
  {
    if Contains(s, sub) {
      var i :| 0 <= i <= |s| && OccursAt(s, sub, i);
      assert s == s[..i] + sub + s[i + |sub|..];
    }
    if before, after :| s == before + sub + after {
      assert OccursAt(s, sub, |before|);
    }
  }

  function ValidateRelativePath(path: Option<string>): (r: Option<RuleError>)
    // Exactly the paths that joining appends as they stand, to any URL, and that cannot pass for a URL themselves.
    ensures r.None? <==> path.None? || (path.value != "" && !Space(path.value[0]) && AppendsAsItStands(path.value)
                                        && !Contains(path.value, "://"))
  {
    if path.None? then None
    else
      AcceptedPaths(path.value);
      if !("/" <= path.value) then Some(PathNotRelative)
      else if "//" <= path.value || Contains(path.value, "://") then Some(PathNotRelative)
      else None
  }

  lemma AcceptedPaths(path: string)
    ensures "/" <= path && !("//" <= path) <==> path != "" && !Space(path[0]) && AppendsAsItStands(path)
  {
    if path != "" {
      SlashIsNoSpace();
      if !Space(path[0]) {
        AppendedExactlyWithOneSlash(path);
      }
      hide AppendsAsItStands, Space;
      assert "/" <= path ==> path[0] == '/';
    }
  }

  /** The rule check, branch by branch; `None` stands for an unset or null argument. */
  function ValidateKeepAliveRules(mode: Option<Mode>, enabled: Option<bool>, interval: Option<int>,
                                  path: Option<string>, checkPathOnDisable: bool): (r: Option<RuleError>)
    // On fully known values the rules accept exactly the consistent combinations.
    ensures mode.Some? && enabled.Some? && checkPathOnDisable ==>
              (r.None? <==> Consistent(mode.value, enabled.value, interval, path))
    // An unknown flag is never contradicted.
    ensures enabled.None? ==> r.None?
  {
    if mode == Some(Monitor) && enabled == Some(true) then Some(EnabledInMonitorMode)
    else if (mode == Some(KeepAlive) || mode == Some(MonitorAndKeepAlive)) && enabled == Some(false) then
      Some(DisabledInKeepAliveMode)
    else if enabled == Some(true) then
      if interval.None? then Some(IntervalRequired) else None
    else if enabled == Some(false) then
      if interval.Some? then Some(IntervalForbidden)
      else if checkPathOnDisable && path.Some? then Some(PathForbidden)
      else None
    else None
  }

  /** The checks on the URL of a create request, on its parse. */
  function ValidateTarget(u: Net.Url, blocked: nat -> bool): (r: Option<RuleError>)
    // Refused are exactly the URLs that every probe would block, whatever the resolver answered.
    ensures r.Some? <==> forall reply :: Net.Resolve(u, reply, blocked).Blocked?
  {
    assert Net.Resolve(u, Net.LookupFailed, blocked).Blocked? ==> forall reply :: Net.Resolve(u, reply, blocked).Blocked?;
    if u.Malformed? || !u.http || u.host.NoHost? then Some(UrlInvalid)
    else if u.credentials then Some(UrlForbidden)
    else match u.host
      case Name(loopbackAlias, _) => if loopbackAlias then Some(UrlForbidden) else None
      case Literal(address) => if blocked(address) then Some(UrlForbidden) else None
  }

  /** A create request; `urlVerdict` is what `ValidateTarget` says of the parse of its URL. */
  datatype MonitorCreate = MonitorCreate(
    name: string,
    url: string,
    urlVerdict: Option<RuleError>,
    checkInterval: int,
    mode: Mode,
    keepAliveEnabled: bool,
    keepAliveInterval: Option<int>,
    keepAlivePath: Option<string>)

  datatype MonitorUpdate = MonitorUpdate(
    name: Field<string>,
    checkInterval: Field<int>,
    mode: Field<Mode>,
    keepAliveEnabled: Field<bool>,
    keepAliveInterval: Field<int>,
    keepAlivePath: Field<string>)

  /** Every value that is present fits its column and, for a path, its purpose. */
  predicate InBounds(name: Option<string>, checkInterval: Option<int>, interval: Option<int>, path: Option<string>) {
    && (name.Some? ==> 1 <= |name.value| <= 120)
    && (checkInterval.Some? ==> IntervalInRange(checkInterval.value))
    && (interval.Some? ==> IntervalInRange(interval.value))
    && (path.Some? ==> |path.value| <= 255 && ValidateRelativePath(path).None?)
  }

  function ValidateBounds(name: Option<string>, checkInterval: Option<int>, interval: Option<int>,
                          path: Option<string>): (r: Option<RuleError>)
    ensures r.None? <==> InBounds(name, checkInterval, interval, path)
  {
    if name.Some? && !(1 <= |name.value| <= 120) then Some(NameLength)
    else if checkInterval.Some? && !IntervalInRange(checkInterval.value) then Some(IntervalRange)
    else if interval.Some? && !IntervalInRange(interval.value) then Some(IntervalRange)
    else if path.Some? && |path.value| > 255 then Some(PathTooLong)
    else ValidateRelativePath(path)
  }

  function ValidateCreate(p: MonitorCreate): (r: Option<RuleError>)
    // Accepted exactly when the URL is, every value is in bounds, and the keep-alive settings agree.
    ensures r.None? <==>
              && p.url != "" && p.urlVerdict.None?
              && InBounds(Some(p.name), Some(p.checkInterval), p.keepAliveInterval, p.keepAlivePath)
              && Consistent(p.mode, p.keepAliveEnabled, p.keepAliveInterval, p.keepAlivePath)
  {
    var bounds := ValidateBounds(Some(p.name), Some(p.checkInterval), p.keepAliveInterval, p.keepAlivePath);
    if p.url == "" then Some(UrlInvalid)
    else if p.urlVerdict.Some? then p.urlVerdict
    else if bounds.Some? then bounds
    else ValidateKeepAliveRules(Some(p.mode), Some(p.keepAliveEnabled), p.keepAliveInterval, p.keepAlivePath, true)
  }

  /** The values a payload supplies do not contradict one another, whatever row it is meant for. */
  predicate AgreesWithItself(p: MonitorUpdate) {
    && (p.keepAliveEnabled.Value? && p.mode.Value? ==> (p.keepAliveEnabled.value <==> p.mode.value != Monitor))
    && (p.keepAliveEnabled.Value? ==> (p.keepAliveEnabled.value <==> p.keepAliveInterval.Value?))
  }

  function ValidateUpdate(p: MonitorUpdate): (r: Option<RuleError>)
    // Enabling always needs an interval in the same payload; disabling must not bring one.
    ensures r.None? <==>
              && AgreesWithItself(p)
              && InBounds(Given(p.name), Given(p.checkInterval), Given(p.keepAliveInterval), Given(p.keepAlivePath))
  {
    var bounds := ValidateBounds(Given(p.name), Given(p.checkInterval), Given(p.keepAliveInterval), Given(p.keepAlivePath));
    if bounds.Some? then bounds
    else ValidateKeepAliveRules(Given(p.mode), Given(p.keepAliveEnabled), Given(p.keepAliveInterval),
                                Given(p.keepAlivePath), false)
  }
}
