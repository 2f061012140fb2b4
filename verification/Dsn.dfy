/** The DSN argument of cache_turbo_redis: [redis[s]://[user[:password]@]]host:port[/db]. */
module Dsn {
  import opened Options

  const DB_MAX := 15

  /** The parts a DSN carries; an absent part leaves the location's field unset. */
  datatype Parts = Parts(tls: bool, user: Option<string>, password: Option<string>, hostport: string, db: Option<nat>)

  // ---- characters ----------------------------------------------------------

  function Lower(c: char): char {
    if 'A' <= c <= 'Z' then c - 'A' + 'a' else c
  }

  /** ngx_strncasecmp against a lower-case literal. */
  predicate StartsWith(s: string, lit: string) {
    |lit| <= |s| && forall i | 0 <= i < |lit| :: Lower(s[i]) == lit[i]
  }

  /** The first c in s[from..to]. */
  function Find(s: string, c: char, from: nat, end: nat): (r: Option<nat>)
    requires from <= end <= |s|
    ensures r.Some? ==> from <= r.value < end && s[r.value] == c && (forall i | from <= i < r.value :: s[i] != c)
    ensures r.None? ==> (forall i | from <= i < end :: s[i] != c)
    decreases end - from
  {
    if from == end then None else if s[from] == c then Some(from) else Find(s, c, from + 1, end)
  }

  /** ngx_strlchr. */
  method Strlchr(s: string, c: char, from: nat, end: nat) returns (r: Option<nat>)
    requires from <= end <= |s|
    ensures r == Find(s, c, from, end)
  {
    var p := from;
    while p < end
      invariant from <= p <= end && Find(s, c, from, end) == Find(s, c, p, end)
    {
      if s[p] == c {
        return Some(p);
      }
      p := p + 1;
    }
    r := None;
  }

  predicate Digit(c: char) { '0' as int <= c as int <= '9' as int }

  /** ngx_atoi on a nonempty string: its value, or None. */
  function Atoi(s: string): Option<nat>
    decreases |s|
  {
    if s == [] then Some(0)
    else
      var c := s[|s| - 1];
      match Atoi(s[..|s| - 1])
      case None => None
      case Some(front) => if !Digit(c) then None else Some(10 * front + (c as int - '0' as int))
  }

  function Itoa(n: nat): string {
    (if n < 10 then "" else Itoa(n / 10)) + [('0' as int + n % 10) as char]
  }

  // ---- the splitter ----------------------------------------------------------

  /** Where the part after the scheme starts, and whether the scheme asks for TLS; None for a bare host:port. */
  function Scheme(s: string): (r: Option<(nat, bool)>)
    ensures r.Some? ==> r.value.0 < |s|
  {
    if |s| > 9 && StartsWith(s, "rediss://") then Some((9, true))
    else if |s| > 8 && StartsWith(s, "redis://") then Some((8, false))
    else None
  }

  function UserOf(s: string, rest: nat, at: nat): (string, Option<string>)
    requires rest <= at < |s|
  {
    match Find(s, ':', rest, at)
    case Some(colon) => (s[rest..colon], Some(s[colon + 1..at]))
    case None => (s[rest..at], None)
  }

  /** The database after the first '/', unset when nothing follows it; None when it is refused. */
  function DbOf(s: string, slash: nat): Option<Option<nat>>
    requires slash < |s|
  {
    if slash + 1 == |s| then Some(None)
    else
      match Atoi(s[slash + 1..])
      case None => None
      case Some(n) => if n > DB_MAX then None else Some(Some(n))
  }

  /** Host and database of s[rest..]. */
  function Tail(s: string, rest: nat, tls: bool, user: Option<string>, password: Option<string>): Option<Parts>
    requires rest <= |s|
  {
    match Find(s, '/', rest, |s|)
    case None => Some(Parts(tls, user, password, s[rest..], None))
    case Some(slash) =>
      match DbOf(s, slash)
      case None => None
      case Some(db) => Some(Parts(tls, user, password, s[rest..slash], db))
  }

  function Split(s: string): Option<Parts> {
    match Scheme(s)
    case None => Some(Parts(false, None, None, s, None))
    case Some((rest, tls)) =>
      match Find(s, '@', rest, |s|)
      case None => Tail(s, rest, tls, None, None)
      case Some(at) => var (user, password) := UserOf(s, rest, at); Tail(s, at + 1, tls, Some(user), password)
  }

  /** redis_split_dsn. */
  method SplitDsn(s: string) returns (r: Option<Parts>)
    ensures r == Split(s)
  {
    hide Find, Tail;
    var rest, tls := 0, false;
    if |s| > 9 && StartsWith(s, "rediss://") {
      tls, rest := true, 9;
    } else if |s| > 8 && StartsWith(s, "redis://") {
      rest := 8;
    } else {
      return Some(Parts(false, None, None, s, None));
    }
    var user: Option<string>, password: Option<string> := None, None;
    var at := Strlchr(s, '@', rest, |s|);
    if at.Some? {
      var colon := Strlchr(s, ':', rest, at.value);
      if colon.Some? {
        user := Some(s[rest..colon.value]);
        password := Some(s[colon.value + 1..at.value]);
      } else {
        user := Some(s[rest..at.value]);
      }
      rest := at.value + 1;
    }
    r := SplitTail(s, rest, tls, user, password);
  }

  /** Its last part: host, and the database if one follows. */
  method SplitTail(s: string, rest: nat, tls: bool, user: Option<string>, password: Option<string>)
    returns (r: Option<Parts>)
    requires rest <= |s|
    ensures r == Tail(s, rest, tls, user, password)
  {
    hide Find, Atoi;
    var slash := Strlchr(s, '/', rest, |s|);
    if slash.None? {
      return Some(Parts(tls, user, password, s[rest..], None));
    }
    var db: Option<nat> := None;
    if |s| - (slash.value + 1) > 0 {
      db := Atoi(s[slash.value + 1..]);
      if db.None? || db.value > DB_MAX {
        return None;
      }
    }
    r := Some(Parts(tls, user, password, s[rest..slash.value], db));
  }

  // ---- the printer -----------------------------------------------------------

  function Authority(p: Parts): string {
    if p.user.None? then "" else p.user.value + Secret(p.password) + "@"
  }

  function Secret(password: Option<string>): string {
    if password.None? then "" else ":" + password.value
  }

  function DbText(p: Parts): string {
    if p.db.None? then "" else "/" + Itoa(p.db.value)
  }

  function Print(scheme: string, p: Parts): string {
    scheme + Authority(p) + p.hostport + DbText(p)
  }

  /** A scheme in any case; a DSN that says something after it; parts free of their delimiters. */
  predicate Printable(scheme: string, p: Parts) {
    && |scheme| == (if p.tls then 9 else 8) && StartsWith(scheme, if p.tls then "rediss://" else "redis://")
    && |Authority(p) + p.hostport + DbText(p)| > 0
    && (p.user.Some? ==> '@' !in p.user.value && ':' !in p.user.value)
    && (p.password.Some? ==> p.user.Some? && '@' !in p.password.value)
    && '@' !in p.hostport && '/' !in p.hostport
    && (p.db.Some? ==> p.db.value <= DB_MAX)
  }

  lemma {:induction false} AtoiOfItoa(n: nat)
    ensures Atoi(Itoa(n)) == Some(n) && Itoa(n) != [] && forall c | c in Itoa(n) :: Digit(c)
  {
    var s := Itoa(n);
    var c := ('0' as int + n % 10) as char;
    if n < 10 {
      assert s[..0] == [] && Atoi(s[..0]) == Some(0);
    } else {
      AtoiOfItoa(n / 10);
      assert s[..|s| - 1] == Itoa(n / 10);
    }
  }

  /** The first c in a + [c] + b, from inside a on, is at |a| when a has none from there. */
  lemma FindAt(s: string, c: char, from: nat, end: nat, at: nat)
    requires from <= at < end <= |s| && s[at] == c && forall i | from <= i < at :: s[i] != c
    ensures Find(s, c, from, end) == Some(at)
  {
  }

  lemma FindNone(s: string, c: char, from: nat, end: nat)
    requires from <= end <= |s| && forall i | from <= i < end :: s[i] != c
    ensures Find(s, c, from, end) == None
  {
  }

  /** A text from `at` on that is x followed by y. */
  lemma Cut(s: string, at: nat, x: string, y: string)
    requires at <= |s| && s[at..] == x + y
    ensures at + |x| <= |s| && s[at..at + |x|] == x && s[at + |x|..] == y
    ensures forall c | c !in x :: forall i | at <= i < at + |x| :: s[i] != c
  {
    assert |s[at..]| == |x| + |y|;
    assert forall i | 0 <= i < |x| :: s[at + i] == s[at..][i] == x[i];
    assert forall i | 0 <= i < |y| :: s[at + |x| + i] == s[at..][|x| + i] == y[i];
    forall c, i | c !in x && at <= i < at + |x| ensures s[i] != c {
      assert s[i] == x[i - at];
    }
  }

  /** Host and database read back from the end of a printed DSN. */
  lemma TailReads(s: string, rest: nat, p: Parts)
    requires rest <= |s| && s[rest..] == p.hostport + DbText(p)
    requires '/' !in p.hostport && (p.db.Some? ==> p.db.value <= DB_MAX)
    ensures Tail(s, rest, p.tls, p.user, p.password) == Some(p)
  {
    hide Find, Itoa, Atoi;
    var slash := rest + |p.hostport|;
    Cut(s, rest, p.hostport, DbText(p));
    if p.db.None? {
      assert p.hostport + "" == p.hostport;
      FindNone(s, '/', rest, |s|);
    } else {
      AtoiOfItoa(p.db.value);
      SlashReads(s, slash, Itoa(p.db.value));
      FindAt(s, '/', rest, |s|, slash);
    }
  }

  lemma SlashReads(s: string, slash: nat, digits: string)
    requires slash <= |s| && s[slash..] == "/" + digits
    ensures slash < |s| && s[slash] == '/' && s[slash + 1..] == digits
  {
    Cut(s, slash, "/", digits);
    assert s[slash] == s[slash..slash + 1][0];
  }

  lemma SchemeReads(scheme: string, p: Parts, s: string)
    requires Printable(scheme, p) && s == Print(scheme, p)
    ensures Scheme(s) == Some((|scheme|, p.tls))
  {
    assert forall i | 0 <= i < |scheme| :: s[i] == scheme[i];
    if !p.tls {
      assert Lower(s[5]) == ':';
      assert !StartsWith(s, "rediss://") by {
        assert "rediss://"[5] == 's';
      }
    }
  }

  lemma PrintParts(scheme: string, p: Parts)
    ensures Print(scheme, p)[|scheme|..] == Authority(p) + (p.hostport + DbText(p))
  {
    hide Authority, DbText;
    var s := Print(scheme, p);
    assert s == scheme + (Authority(p) + (p.hostport + DbText(p)));
  }

  /** Splitting undoes printing, for every scheme case, user, password, host and database. */
  lemma SplitOfPrint(scheme: string, p: Parts)
    requires Printable(scheme, p)
    ensures Split(Print(scheme, p)) == Some(p)
  {
    hide Print, DbText, Find, UserOf, Tail, Scheme, StartsWith, Secret;
    var s := Print(scheme, p);
    SchemeReads(scheme, p, s);
    PrintParts(scheme, p);
    if p.user.None? {
      BareReads(s, |scheme|, p);
    } else {
      hide Authority;
      var tail := p.hostport + DbText(p);
      UserReads(s, |scheme|, p, tail);
      Cut(s, |scheme|, Authority(p), tail);
      TailReads(s, |scheme| + |Authority(p)|, p);
    }
  }

  lemma BareReads(s: string, rest: nat, p: Parts)
    requires rest <= |s| && s[rest..] == Authority(p) + (p.hostport + DbText(p)) && p.user.None?
    requires '@' !in p.hostport && '/' !in p.hostport && (p.db.Some? ==> p.db.value <= DB_MAX)
    ensures Find(s, '@', rest, |s|) == None && Tail(s, rest, p.tls, None, p.password) == Some(p)
  {
    var tail := p.hostport + DbText(p);
    NoAtIn(p);
    hide DbText, Find, Tail;
    assert s[rest..] == tail && tail == tail + "";
    Cut(s, rest, tail, "");
    FindNone(s, '@', rest, |s|);
    TailReads(s, rest, p);
  }

  lemma NoAtIn(p: Parts)
    requires '@' !in p.hostport
    ensures '@' !in p.hostport + DbText(p)
  {
    if p.db.Some? {
      AtoiOfItoa(p.db.value);
    }
  }

  /** User and password read back from the authority part. */
  lemma UserReads(s: string, rest: nat, p: Parts, tail: string)
    requires rest <= |s| && s[rest..] == Authority(p) + tail && p.user.Some?
    requires '@' !in p.user.value && ':' !in p.user.value && (p.password.Some? ==> '@' !in p.password.value)
    ensures var at := rest + |Authority(p)| - 1;
            at < |s| && Find(s, '@', rest, |s|) == Some(at) && UserOf(s, rest, at) == (p.user.value, p.password)
  {
    hide Find, UserOf, Secret;
    var user, secret := p.user.value, Secret(p.password);
    NoAtInSecret(p.password);
    AuthorityCuts(s, rest, user, secret, tail);
    var at := rest + |user| + |secret|;
    FindAt(s, '@', rest, |s|, at);
    SecretReads(s, rest, rest + |user|, at, p.password);
  }

  lemma NoAtInSecret(password: Option<string>)
    requires password.Some? ==> '@' !in password.value
    ensures '@' !in Secret(password)
  {
  }

  /** The part up to '@' splits at its first colon. */
  lemma SecretReads(s: string, rest: nat, colon: nat, at: nat, password: Option<string>)
    requires rest <= colon <= at < |s| && (forall i | rest <= i < colon :: s[i] != ':')
    requires s[colon..at] == Secret(password)
    ensures UserOf(s, rest, at) == (s[rest..colon], password)
  {
    hide Find;
    if password.Some? {
      assert s[colon..at][0] == ':' && s[colon..at][1..] == password.value;
      assert s[colon] == s[colon..at][0] && s[colon + 1..at] == s[colon..at][1..];
      FindAt(s, ':', rest, at, colon);
    } else {
      assert colon == at;
      FindNone(s, ':', rest, at);
    }
  }

  lemma AuthorityCuts(s: string, rest: nat, user: string, secret: string, tail: string)
    requires rest <= |s| && s[rest..] == user + secret + "@" + tail && '@' !in user && '@' !in secret && ':' !in user
    ensures var at := rest + |user| + |secret|;
            && at < |s| && s[at] == '@' && (forall i | rest <= i < at :: s[i] != '@')
            && s[rest..rest + |user|] == user && s[rest + |user|..at] == secret
            && (forall i | rest <= i < rest + |user| :: s[i] != ':')
  {
    var at := rest + |user| + |secret|;
    assert s[rest..] == user + (secret + "@" + tail);
    Cut(s, rest, user, secret + "@" + tail);
    assert s[rest + |user|..] == secret + ("@" + tail);
    Cut(s, rest + |user|, secret, "@" + tail);
    Cut(s, at, "@", tail);
    assert s[at] == s[at..at + 1][0] == '@';
  }
}
