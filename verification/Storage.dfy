/**
 * The upload directory (internal/storage/storage.go): objects under random keys, and a directory of
 * temporary files. An object appears whole, by a rename, or not at all.
 */
module Storage {
  import opened Basics
  import opened Timestamps
  import opened JobTable
  import opened Schema

  type Bytes = seq<bv8>

  datatype Temp = Temp(content: Bytes, modified: Moment)

  /** How far a save gets before the process dies, if it does. */
  datatype Fate = Survives | DiesWriting(written: nat) | DiesBeforeRename

  datatype Saved = Stored | TooLarge | Died

  class Local {
    var objects: map<Key, Bytes>
    var temps: map<string, Temp>

    constructor ()
      ensures objects == map[] && temps == map[]
    {
      objects, temps := map[], map[];
    }

    /** Reading stops one byte past the limit: what the temporary file gets. */
    static function Read(content: Bytes, maxBytes: nat): Bytes {
      if |content| <= maxBytes + 1 then content else content[..maxBytes + 1]
    }

    /**
     * Save: write a temporary file, check the size, rename it to its key. Whatever happens, the key names
     * nothing or the whole upload, other objects are untouched, and only a dead process leaves its
     * temporary file behind.
     */
    method Save(content: Bytes, maxBytes: nat, key: Key, temp: string, now: Moment, fate: Fate) returns (r: Saved)
      requires ValidKey(key) && key !in objects && temp !in temps
      modifies this
      ensures r.Stored? <==> |content| <= maxBytes && fate.Survives?
      ensures r.TooLarge? <==> |content| > maxBytes && (fate.Survives? || fate.DiesBeforeRename?)
      ensures objects == if r.Stored? then old(objects)[key := content] else old(objects)
      ensures r.Died? ==> temps.Keys == old(temps).Keys + {temp}
      ensures !r.Died? ==> temps == old(temps)
    {
      var bytes := Read(content, maxBytes);
      temps := temps[temp := Temp([], now)];
      var n := 0;
      while n < |bytes|
        invariant 0 <= n <= |bytes|
        invariant temps == old(temps)[temp := Temp(bytes[..n], now)] && objects == old(objects)
      {
        if fate.DiesWriting? && fate.written <= n {
          return Died;
        }
        n := n + 1;
        temps := temps[temp := Temp(bytes[..n], now)];
      }
      if fate.DiesWriting? {
        return Died;
      }
      if |bytes| > maxBytes {
        temps := temps - {temp};
        return TooLarge;
      }
      if fate.DiesBeforeRename? {
        return Died;
      }
      assert bytes[..n] == bytes == content;
      objects, temps := objects[key := temps[temp].content], temps - {temp};
      return Stored;
    }

    /** Delete: an object that is not there is as good as deleted. */
    method Delete(key: Key) returns (ok: bool)
      modifies `objects
      ensures ok <==> |key| == 32 && forall c | c in key :: c in "0123456789abcdefABCDEF"
      ensures ok <==> ValidKey(key)
      ensures objects == if ok then old(objects) - {key} else old(objects)
    {
      HexLetters();
      if |key| != 32 || exists c :: c in key && !IsHex(c) {
        return false;
      }
      objects := objects - {key};
      return true;
    }

    /** CleanTemp: drop the temporary files of uploads abandoned longer ago than the given age. */
    method CleanTemp(olderThan: Duration, now: Moment)
      modifies `temps
      ensures temps == Fresh(old(temps), olderThan, now)
    {
      var todo := temps.Keys;
      while todo != {}
        invariant todo <= old(temps).Keys
        invariant forall t :: t in temps <==> t in old(temps) && (t in todo || now - old(temps)[t].modified <= olderThan)
        invariant forall t | t in temps :: temps[t] == old(temps)[t]
        decreases |todo|
      {
        var t :| t in todo;
        todo := todo - {t};
        if now - temps[t].modified > olderThan {
          temps := temps - {t};
        }
      }
    }
  }

  function Fresh(temps: map<string, Temp>, olderThan: Duration, now: Moment): map<string, Temp> {
    map t | t in temps && now - temps[t].modified <= olderThan :: temps[t]
  }

  lemma HexLetters()
    ensures forall c :: IsHex(c) <==> c in "0123456789abcdefABCDEF"
  {
    var s := "0123456789abcdefABCDEF";
    forall c
      ensures IsHex(c) <==> c in s
    {
      if '0' <= c <= '9' {
        assert s[c as int - '0' as int] == c;
      } else if 'a' <= c <= 'f' {
        assert s[10 + c as int - 'a' as int] == c;
      } else if 'A' <= c <= 'F' {
        assert s[16 + c as int - 'A' as int] == c;
      }
    }
  }
}
