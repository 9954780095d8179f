/**
 The chunk files of one server run, tools/kvmem-session-files.h, in a private directory. Every
 file is charged before its first byte is written and stays charged until it is removed.

 A write that throws leaves no file, part of one, or all of it under its temporary name, and
 the removal that follows may fail too. Both are parameters, as is the free space reported.
 Storage gives back what was written to it.
 */
module SessionFiles {
  import opened MapSums

  datatype Key = Key(id: int, chunk: nat)

  datatype Record = Record(bytes: nat, ready: bool)

  datatype File = Partial | Full(data: seq<int>)

  datatype Left = Nothing | Some(file: File)

  // What goes wrong during a save, if anything.
  datatype Fault = NoFault | Thrown(left: Left, removable: bool)

  datatype Saved = Saved | Quota | NoSpace | Failed

  datatype Loaded = Loaded(data: seq<int>) | Corrupt | Unreadable

  function Size(r: Record): nat { r.bytes }

  class Files {
    const limit: nat
    var records: map<Key, Record>
    var bytes: nat
    var disk: map<Key, File>

    // The charge is what the records add up to, and there is no file without a record.
    ghost predicate Valid()
      reads this
    {
      && bytes == Total(records, Size) && bytes <= limit && disk.Keys <= records.Keys
      && forall k :: k in records && records[k].ready ==> k in disk && disk[k].Full?
    }

    constructor (limit: nat)
      ensures Valid() && this.limit == limit && records == map[] && bytes == 0
    {
      this.limit, records, bytes, disk := limit, map[], 0, map[];
    }

    predicate Ready(k: Key)
      reads this
    {
      k in records && records[k].ready
    }

    function ChunkBytes(k: Key): nat
      reads this
    {
      if k in records then records[k].bytes else 0
    }

    /** erase_chunk(). A removal that fails changes nothing: the file stays charged. */
    method Erase(k: Key, removable: bool) returns (ok: bool)
      requires Valid()
      modifies this
      ensures Valid() && (ok <==> k !in old(records) || removable)
      ensures if ok then records == old(records) - {k} && disk == old(disk) - {k}
              else records == old(records) && disk == old(disk)
      ensures bytes == old(bytes) - (if ok then old(ChunkBytes(k)) else 0)
    {
      if k !in records {
        assert records - {k} == records && disk - {k} == disk;
        return true;
      }
      if !removable { return false; }
      TotalWithout(records, Size, k);
      bytes := bytes - records[k].bytes;
      records, disk := records - {k}, disk - {k};
      ok := true;
    }

    /** save_chunk(). */
    method Save(k: Key, payload: nat, data: seq<int>, free: nat, fault: Fault) returns (r: Saved)
      requires Valid()
      modifies this
      ensures Valid()
      ensures r.Quota? <==> k in old(records) || payload + 8 > limit - old(bytes)
      ensures r.NoSpace? <==> k !in old(records) && payload + 8 <= limit - old(bytes) && free < payload + 8
      ensures r.Failed? <==>
                k !in old(records) && payload + 8 <= limit - old(bytes) && free >= payload + 8 && fault.Thrown?
      ensures r.Quota? || r.NoSpace? ==> records == old(records) && disk == old(disk)
      ensures r.Saved? ==> records == old(records)[k := Record(payload + 8, true)] && disk == old(disk)[k := Full(data)]
      // A failed write leaves nothing behind, or an unready file that is charged in full.
      ensures r.Failed? && fault.removable ==> records == old(records) && disk == old(disk)
      ensures r.Failed? && !fault.removable ==>
                records == old(records)[k := Record(payload + 8, false)] && disk - {k} == old(disk)
      ensures bytes == old(bytes) + (if r.Saved? || (r.Failed? && !fault.removable) then payload + 8 else 0)
    {
      hide Total;
      if k in records || payload + 8 > limit - bytes { return Quota; }
      var total := payload + 8;
      if free < total { return NoSpace; }
      TotalPut(records, Size, k, Record(total, false));
      TotalPut(records, Size, k, Record(total, true));
      assert records - {k} == records && disk - {k} == disk;
      records, bytes := records[k := Record(total, false)], bytes + total;
      if fault.Thrown? {
        if fault.left.Some? { disk := disk[k := fault.left.file]; }
        assert disk - {k} == old(disk) && records - {k} == old(records);
        var _ := Erase(k, fault.removable);
        return Failed;
      }
      disk := disk[k := Full(data)];
      records := records[k := records[k].(ready := true)];
      assert records == old(records)[k := Record(total, true)];
      r := Saved;
    }

    /** load_chunk(). */
    method Load(k: Key, fault: bool) returns (r: Loaded)
      requires Valid()
      ensures r.Loaded? <==> Ready(k) && !fault
      ensures r.Loaded? ==> k in disk && disk[k] == Full(r.data)
    {
      if k !in records || fault { return Unreadable; }
      if !records[k].ready { return Corrupt; }
      r := Loaded(disk[k].data);
    }
  }
}
