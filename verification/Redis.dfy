/** The part of Redis the health window uses: a keyspace, key expiry, and a staged transaction. */
module Redis {
  import opened Common

  /** A stored hash value, as far as reading it back as an integer goes. */
  datatype Raw = Integer(value: int) | Text(text: string)

  /** A stored list entry, as far as reading it back as a float goes. */
  datatype RawSample = Number(value: real) | NotANumber | Garbage(text: string)

  datatype Slot<+T> = Slot(value: T, expiresAt: Option<real>)

  predicate Live<T>(slot: Slot<T>, now: real) {
    slot.expiresAt == None || now <= slot.expiresAt.value
  }

  /**
    The keyspace at one instant of the server's clock. Hashes and lists are kept apart because
    the two key shapes never coincide (Keys.KindsDisjoint).
   */
  datatype Db = Db(now: real,
                   hashes: map<string, Slot<map<string, Raw>>>,
                   lists: map<string, Slot<seq<RawSample>>>) {

    /** HGETALL: an expired key reads as absent, whether or not it was reclaimed yet. */
    function HGetAll(key: string): map<string, Raw> {
      if key in hashes && Live(hashes[key], now) then hashes[key].value else map[]
    }

    /** LRANGE key 0 -1. */
    function LRange(key: string): seq<RawSample> {
      if key in lists && Live(lists[key], now) then lists[key].value else []
    }
  }

  const EMPTY_DB := Db(0.0, map[], map[])

  datatype Command =
    | HIncrBy(key: string, field: string)
    | Expire(key: string, seconds: real)
    | LPush(key: string, sample: real)
    | LTrim(key: string, keep: nat)

  /** What a command leaves behind, and whether it was an error reply. */
  datatype Reply = Reply(db: Db, ok: bool)

  /** The deadline a write inherits: that of the live key it writes to, none for a new key. */
  function Inherited<T>(slots: map<string, Slot<T>>, key: string, now: real): Option<real> {
    if key in slots && Live(slots[key], now) then slots[key].expiresAt else None
  }

  function Deadline<T>(slots: map<string, Slot<T>>, key: string, now: real, at: real): map<string, Slot<T>> {
    if key in slots && Live(slots[key], now) then slots[key := slots[key].(expiresAt := Some(at))] else slots
  }

  function Apply(db: Db, c: Command): Reply {
    match c
    case HIncrBy(key, field) =>
      var fields := db.HGetAll(key);
      if field in fields && fields[field].Text? then
        Reply(db, false)
      else
        var count := if field in fields then fields[field].value else 0;
        var slot := Slot(fields[field := Integer(count + 1)], Inherited(db.hashes, key, db.now));
        Reply(db.(hashes := db.hashes[key := slot]), true)
    case Expire(key, seconds) =>
      Reply(db.(hashes := Deadline(db.hashes, key, db.now, db.now + seconds),
                lists := Deadline(db.lists, key, db.now, db.now + seconds)), true)
    case LPush(key, sample) =>
      var slot := Slot([Number(sample)] + db.LRange(key), Inherited(db.lists, key, db.now));
      Reply(db.(lists := db.lists[key := slot]), true)
    case LTrim(key, keep) =>
      var items := db.LRange(key);
      var slot := Slot(items[..Min(keep, |items|)], Inherited(db.lists, key, db.now));
      Reply(db.(lists := db.lists[key := slot]), true)
  }

  /** EXEC: every staged command runs, in order, even after an error reply. */
  function ApplyAll(db: Db, cs: seq<Command>): Reply {
    if cs == [] then
      Reply(db, true)
    else
      var before := ApplyAll(db, cs[..|cs| - 1]);
      var last := Apply(before.db, cs[|cs| - 1]);
      Reply(last.db, before.ok && last.ok)
  }

  /** Reclaiming an expired key in the background. */
  function Evict(db: Db, key: string): Db {
    Db(db.now,
       if key in db.hashes && !Live(db.hashes[key], db.now) then db.hashes - {key} else db.hashes,
       if key in db.lists && !Live(db.lists[key], db.now) then db.lists - {key} else db.lists)
  }

  /** Commands staged by a client and not yet sent. */
  class Pipeline {
    var staged: seq<Command>

    constructor ()
      ensures staged == []
    {
      staged := [];
    }

    method Stage(c: Command)
      modifies this
      ensures staged == old(staged) + [c]
    {
      staged := staged + [c];
    }
  }
}
