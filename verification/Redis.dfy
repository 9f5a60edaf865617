/** The Redis commands the cache issues, over one keyspace: lists and key sets live under the same kind of name. */
module Redis {
  import opened Wrappers
  import opened Domain

  datatype Value = Rows(rows: seq<Task>) | Members(keys: set<string>)

  /** expireAt None: the key has no time to live. */
  datatype Cell = Cell(value: Value, expireAt: Option<nat>)

  type Store = map<string, Cell>

  predicate Live(s: Store, now: nat, k: string) {
    k in s && (s[k].expireAt.Some? ==> now < s[k].expireAt.value)
  }

  predicate LiveRows(s: Store, now: nat, k: string) {
    Live(s, now, k) && s[k].value.Rows?
  }

  /** GET: Some(rows), None for a missing key, an error (WRONGTYPE) for a set. */
  function Get(s: Store, now: nat, k: string): Result<Option<seq<Task>>, Error> {
    if !Live(s, now, k) then Ok(None)
    else if s[k].value.Rows? then Ok(Some(s[k].value.rows))
    else Err(Database)
  }

  /** SET with a time to live. */
  function SetEx(s: Store, now: nat, ttl: nat, k: string, rows: seq<Task>): Store {
    s[k := Cell(Rows(rows), Some(now + ttl))]
  }

  /** SADD of one member; keeps the set's expiry, starts a fresh set on a dead key, refuses a non-set. */
  function SAdd(s: Store, now: nat, k: string, member: string): Store {
    if !Live(s, now, k) then s[k := Cell(Members({member}), None)]
    else if s[k].value.Members? then s[k := s[k].(value := Members(s[k].value.keys + {member}))]
    else s
  }

  function Expire(s: Store, now: nat, ttl: nat, k: string): Store {
    if Live(s, now, k) then s[k := s[k].(expireAt := Some(now + ttl))] else s
  }

  function SMembers(s: Store, now: nat, k: string): Result<set<string>, Error> {
    if !Live(s, now, k) then Ok({})
    else if s[k].value.Members? then Ok(s[k].value.keys)
    else Err(Database)
  }

  function Del(s: Store, ks: set<string>): Store {
    s - ks
  }
}
