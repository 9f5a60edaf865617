/** Cache keys (internal/cache/cache.go): printing a filter, naming a team's key set, reading the team back. */
module KeyCodec {
  import opened Wrappers
  import opened Domain
  import opened Decimal

  const ALL: string := "all"
  const PREFIX: string := "tasks:team:"

  function StatusText(f: TaskFilter): string {
    if f.status.Some? then f.status.value else ALL
  }

  function AssigneeText(f: TaskFilter): string {
    if f.assignee.Some? then FormatInt(f.assignee.value) else ALL
  }

  /** x, then a named field. */
  function Field(x: string, name: string, value: string): string {
    x + ":" + name + ":" + value
  }

  function AssigneePart(f: TaskFilter): string {
    Field("status:" + StatusText(f), "assignee", AssigneeText(f))
  }

  function LimitPart(f: TaskFilter): string {
    Field(AssigneePart(f), "limit", FormatInt(f.limit))
  }

  /** What follows the team number in a list key. */
  function KeyTail(f: TaskFilter): string {
    Field(LimitPart(f), "offset", FormatInt(f.offset))
  }

  /** The key of one page of a team's list. */
  function TasksKey(f: TaskFilter): string {
    PREFIX + (FormatInt(f.teamId) + ":" + KeyTail(f))
  }

  /** The key of the set that names a team's cached lists. */
  function TeamSetKey(teamId: Int64): string {
    PREFIX + (FormatInt(teamId) + ":" + "keys")
  }

  /** strings.IndexByte: position of the first c, or -1. */
  function IndexOf(s: string, c: char): (i: int)
    ensures -1 <= i < |s|
    ensures i >= 0 ==> s[i] == c && c !in s[..i]
    ensures i < 0 ==> c !in s
  {
    if s == [] then -1
    else if s[0] == c then 0
    else
      var j := IndexOf(s[1..], c);
      assert j >= 0 ==> s[..j + 1] == [s[0]] + s[1..][..j];
      if j < 0 then -1 else j + 1
  }

  function TeamIDFromKey(key: string): Int64 {
    if !(PREFIX <= key) then 0
    else
      var rest := key[|PREFIX|..];
      var end := IndexOf(rest, ':');
      if end < 0 then 0
      else
        match ParseInt(rest[..end])
        case Some(id) => id
        case None => 0
  }

  // ---- splitting at colons ----

  predicate NoColon(s: string) {
    ':' !in s
  }

  lemma FormatNoColon(n: int)
    ensures NoColon(FormatInt(n)) && FormatInt(n) != [] && FormatInt(n) != ALL
  {
    FormatChars(n);
    assert ALL[0] == 'a';
  }

  lemma NotBefore(a: string, x: string, i: nat)
    requires NoColon(a)
    ensures i < |a| ==> (a + ":" + x)[i] != ':'
  {
  }

  lemma NotAfter(x: string, a: string, i: nat)
    requires NoColon(a)
    ensures |x| < i < |x| + 1 + |a| ==> (x + ":" + a)[i] != ':'
  {
  }

  /** The text before the first colon is determined. */
  lemma SplitFirst(a: string, x: string, b: string, y: string)
    requires NoColon(a) && NoColon(b)
    requires a + ":" + x == b + ":" + y
    ensures a == b && x == y
  {
    var s := a + ":" + x;
    assert s[|a|] == ':' && s[|b|] == ':';
    NotBefore(b, y, |a|);
    NotBefore(a, x, |b|);
    assert a == s[..|a|] && b == s[..|b|];
    assert x == s[|a| + 1..] && y == s[|b| + 1..];
  }

  /** The text after the last colon is determined. */
  lemma SplitLast(x: string, a: string, y: string, b: string)
    requires NoColon(a) && NoColon(b)
    requires x + ":" + a == y + ":" + b
    ensures a == b && x == y
  {
    var s := x + ":" + a;
    assert s[|x|] == ':' && s[|y|] == ':';
    NotAfter(x, a, |y|);
    NotAfter(y, b, |x|);
    assert x == s[..|x|] && y == s[..|y|];
    assert a == s[|x| + 1..] && b == s[|y| + 1..];
  }

  /** A field at the right-hand end, name and value colon-free, can be stripped. */
  lemma StripField(x: string, name: string, a: string, y: string, b: string)
    requires NoColon(name) && NoColon(a) && NoColon(b)
    requires Field(x, name, a) == Field(y, name, b)
    ensures a == b && x == y
  {
    SplitLast(x + ":" + name, a, y + ":" + name, b);
    SplitLast(x, name, y, name);
  }

  lemma StripPrefix(p: string, a: string, b: string)
    requires p + a == p + b
    ensures a == b
  {
    assert a == (p + a)[|p|..];
    assert b == (p + b)[|p|..];
  }

  /** The tail determines every other field, read from the right-hand end; status text may hold colons. */
  lemma TailDetermines(f: TaskFilter, g: TaskFilter)
    requires KeyTail(f) == KeyTail(g)
    ensures StatusText(f) == StatusText(g) && f.assignee == g.assignee && f.limit == g.limit && f.offset == g.offset
  {
    FormatNoColon(f.offset); FormatNoColon(g.offset);
    FormatNoColon(f.limit); FormatNoColon(g.limit);
    AssigneeNoColon(f); AssigneeNoColon(g);
    StripField(LimitPart(f), "offset", FormatInt(f.offset), LimitPart(g), FormatInt(g.offset));
    StripField(AssigneePart(f), "limit", FormatInt(f.limit), AssigneePart(g), FormatInt(g.limit));
    StripField("status:" + StatusText(f), "assignee", AssigneeText(f), "status:" + StatusText(g), AssigneeText(g));
    StripPrefix("status:", StatusText(f), StatusText(g));
    FormatInjective(f.limit, g.limit);
    FormatInjective(f.offset, g.offset);
    AssigneeDetermined(f, g);
  }

  lemma AssigneeDetermined(f: TaskFilter, g: TaskFilter)
    requires AssigneeText(f) == AssigneeText(g)
    ensures f.assignee == g.assignee
  {
    if f.assignee.Some? { FormatNoColon(f.assignee.value); }
    if g.assignee.Some? { FormatNoColon(g.assignee.value); }
    if f.assignee.Some? && g.assignee.Some? {
      FormatInjective(f.assignee.value, g.assignee.value);
    }
  }

  lemma AssigneeNoColon(f: TaskFilter)
    ensures NoColon(AssigneeText(f))
  {
    if f.assignee.Some? { FormatNoColon(f.assignee.value); }
  }

  // ---- main results ----

  /** Two filters share a key exactly when they agree on everything but possibly an absent status against "all". */
  lemma KeyCollision(f: TaskFilter, g: TaskFilter)
    ensures TasksKey(f) == TasksKey(g) <==>
            && f.teamId == g.teamId && f.assignee == g.assignee && f.limit == g.limit && f.offset == g.offset
            && (f.status == g.status
                || (f.status == None && g.status == Some(ALL))
                || (f.status == Some(ALL) && g.status == None))
  {
    if TasksKey(f) == TasksKey(g) {
      StripPrefix(PREFIX, FormatInt(f.teamId) + ":" + KeyTail(f), FormatInt(g.teamId) + ":" + KeyTail(g));
      FormatNoColon(f.teamId); FormatNoColon(g.teamId);
      SplitFirst(FormatInt(f.teamId), KeyTail(f), FormatInt(g.teamId), KeyTail(g));
      FormatInjective(f.teamId, g.teamId);
      TailDetermines(f, g);
    }
  }

  /** Keys are injective on the filters whose status, when present, is not the word "all". */
  lemma KeyInjective(f: TaskFilter, g: TaskFilter)
    requires f.status != Some(ALL) && g.status != Some(ALL)
    requires TasksKey(f) == TasksKey(g)
    ensures f == g
  {
    KeyCollision(f, g);
  }

  /** The collision the condition shuts out: no status and the status "all" print the same key. */
  lemma AllCollides(f: TaskFilter)
    requires f.status == None
    ensures f.(status := Some(ALL)) != f && TasksKey(f.(status := Some(ALL))) == TasksKey(f)
  {
  }

  /** No list key is any team's set key: the two kinds of value never meet under one name. */
  lemma KeySpacesDisjoint(f: TaskFilter, t: Int64)
    ensures TasksKey(f) != TeamSetKey(t)
  {
    var a, b := FormatInt(f.teamId), FormatInt(t);
    FormatNoColon(f.teamId); FormatNoColon(t);
    TailsDiffer(f);
    if PREFIX + (a + ":" + KeyTail(f)) == PREFIX + (b + ":" + "keys") {
      StripPrefix(PREFIX, a + ":" + KeyTail(f), b + ":" + "keys");
      SplitFirst(a, KeyTail(f), b, "keys");
      assert false;
    }
  }

  lemma TailsDiffer(f: TaskFilter)
    ensures KeyTail(f) != "keys"
  {
  }

  lemma SetKeyInjective(t: Int64, u: Int64)
    requires TeamSetKey(t) == TeamSetKey(u)
    ensures t == u
  {
    StripPrefix(PREFIX, FormatInt(t) + ":" + "keys", FormatInt(u) + ":" + "keys");
    FormatNoColon(t); FormatNoColon(u);
    SplitFirst(FormatInt(t), "keys", FormatInt(u), "keys");
    FormatInjective(t, u);
  }

  /** The first colon of `a + ":" + x` is right after a colon-free a. */
  lemma FirstColon(a: string, x: string)
    requires NoColon(a)
    ensures IndexOf(a + ":" + x, ':') == |a|
  {
    var s := a + ":" + x;
    assert s[|a|] == ':';
    var i := IndexOf(s, ':');
    assert s == s[..i] + ":" + s[i + 1..];
    SplitFirst(a, x, s[..i], s[i + 1..]);
  }

  lemma ParseTeam(body: string, tail: string)
    requires NoColon(body)
    ensures TeamIDFromKey(PREFIX + (body + ":" + tail))
            == (match ParseInt(body) case Some(id) => id case None => 0)
  {
    var key := PREFIX + (body + ":" + tail);
    var rest := key[|PREFIX|..];
    assert rest == body + ":" + tail;
    FirstColon(body, tail);
    assert rest[..|body|] == body;
  }

  /** The team read from any list key and from any set key is the team it was printed with. */
  lemma TeamRoundTrip(f: TaskFilter, t: Int64)
    ensures TeamIDFromKey(TasksKey(f)) == f.teamId
    ensures TeamIDFromKey(TeamSetKey(t)) == t
  {
    FormatNoColon(f.teamId); FormatNoColon(t);
    ParseTeam(FormatInt(f.teamId), KeyTail(f));
    ParseTeam(FormatInt(t), "keys");
    FormatParse(f.teamId); FormatParse(t);
  }

  ghost predicate SpellsTeam(key: string, id: Int64) {
    exists body, tail :: key == "tasks:team:" + (body + ":" + tail) && NoColon(body) && ParseInt(body) == Some(id)
  }

  lemma ReadTextSpells(key: string)
    requires TeamIDFromKey(key) != 0
    ensures SpellsTeam(key, TeamIDFromKey(key))
  {
    hide ParseInt;
    var rest := key[|PREFIX|..];
    var end := IndexOf(rest, ':');
    var body, tail := rest[..end], rest[end + 1..];
    assert rest == body + ":" + tail;
    assert key == PREFIX + rest;
    SpelledBy(key, TeamIDFromKey(key), body, tail);
  }

  lemma SpelledBy(key: string, id: Int64, body: string, tail: string)
    requires key == PREFIX + (body + ":" + tail) && NoColon(body) && ParseInt(body) == Some(id)
    ensures SpellsTeam(key, id)
  {
    hide ParseInt;
    assert key == "tasks:team:" + (body + ":" + tail);
  }

  lemma SpelledTextReads(key: string, id: Int64)
    requires SpellsTeam(key, id)
    ensures TeamIDFromKey(key) == id
  {
    hide ParseInt, TeamIDFromKey;
    var body, tail :| key == "tasks:team:" + (body + ":" + tail) && NoColon(body) && ParseInt(body) == Some(id);
    ParseTeam(body, tail);
  }

  /** On arbitrary text the reader is total, and reports a team exactly when the text spells one. */
  lemma TeamReadFromAnyText(key: string, id: Int64)
    requires id != 0
    ensures TeamIDFromKey(key) == id <==> SpellsTeam(key, id)
  {
    hide TeamIDFromKey, SpellsTeam;
    if TeamIDFromKey(key) == id { ReadTextSpells(key); }
    if SpellsTeam(key, id) { SpelledTextReads(key, id); }
  }

  // ---- the printed form ----

  lemma FieldSpelling(x: string, name: string, mark: string, value: string)
    requires mark == ":" + name + ":"
    ensures Field(x, name, value) == x + mark + value
  {
  }

  lemma PrependTail(p: string, x: string, mark: string, value: string)
    ensures p + (x + mark + value) == p + x + mark + value
  {
  }

  lemma TextsSpelled(f: TaskFilter)
    ensures StatusText(f) == if f.status.Some? then f.status.value else "all"
    ensures AssigneeText(f) == if f.assignee.Some? then FormatInt(f.assignee.value) else "all"
  {
  }

  /** A list key, read from left to right. */
  lemma KeySpelling(f: TaskFilter)
    ensures TasksKey(f) == "tasks:team:" + FormatInt(f.teamId)
                           + ":status:" + (if f.status.Some? then f.status.value else "all")
                           + ":assignee:" + (if f.assignee.Some? then FormatInt(f.assignee.value) else "all")
                           + ":limit:" + FormatInt(f.limit) + ":offset:" + FormatInt(f.offset)
  {
    hide FormatInt, StatusText, AssigneeText, Field;
    TextsSpelled(f);
    var p, status := PREFIX + FormatInt(f.teamId), "status:" + StatusText(f);
    var head := p + ":";
    assert TasksKey(f) == head + KeyTail(f);
    FieldSpelling(status, "assignee", ":assignee:", AssigneeText(f));
    FieldSpelling(AssigneePart(f), "limit", ":limit:", FormatInt(f.limit));
    FieldSpelling(LimitPart(f), "offset", ":offset:", FormatInt(f.offset));
    PrependTail(head, LimitPart(f), ":offset:", FormatInt(f.offset));
    PrependTail(head, AssigneePart(f), ":limit:", FormatInt(f.limit));
    PrependTail(head, status, ":assignee:", AssigneeText(f));
    assert head + status == p + ":status:" + StatusText(f) by {
      assert ":status:" == ":" + "status:";
    }
  }

  /** A set key, read from left to right. */
  lemma SetKeySpelling(teamId: Int64)
    ensures TeamSetKey(teamId) == "tasks:team:" + FormatInt(teamId) + ":keys"
  {
    hide FormatInt;
    assert ":keys" == ":" + "keys";
  }
}
