/**
 * filter/filter_memory.py: RequestMemoryFilter, the in-process filter of
 * BaseFilter's family: one Python set for request fingerprints and one for
 * item fingerprints, with the same check-and-set judge as SetFilter.
 */
module MemoryFilters {
  import opened Common
  import opened Tasks
  import opened Fingerprints
  import opened SetFilters

  /** RequestMemoryFilter */
  class RequestMemoryFilter {
    const memoryFilterRequest: PySet<string>
    const memoryFilterItem: PySet<string>
    const enc: Encoding

    constructor (enc: Encoding)
      ensures fresh(memoryFilterRequest) && fresh(memoryFilterItem)
      ensures memoryFilterRequest.elems == {} && memoryFilterItem.elems == {}
      ensures this.enc == enc
    {
      memoryFilterRequest := new PySet();
      memoryFilterItem := new PySet();
      this.enc := enc;
    }

    /** judge(fingerprint, f): check-and-set of fingerprint on f. */
    method Judge(fingerprint: string, f: PySet<string>) returns (repeat: bool)
      modifies f
      ensures (repeat, f.elems) == CheckAndSet(old(f.elems), fingerprint)
    {
      if fingerprint in f.elems {
        return true;
      }
      f.elems := f.elems + {fingerprint};
      return false;
    }

    /**
     * is_repeat: judge on the set for the object's type; under STRICT_FILTER
     * inside FilterLock (`locked`), with the same answer.
     */
    method IsRepeat(obj: Task, strict: bool) returns (res: Result<bool>, locked: bool)
      requires memoryFilterRequest != memoryFilterItem
      modifies memoryFilterRequest, memoryFilterItem
      ensures locked == (strict && Fingerprint(obj, enc).Ok?)
      ensures Fingerprint(obj, enc).Err? ==>
                res == Err(Fingerprint(obj, enc).error)
                && memoryFilterRequest.elems == old(memoryFilterRequest.elems)
                && memoryFilterItem.elems == old(memoryFilterItem.elems)
      ensures Fingerprint(obj, enc).Ok? && obj.RequestTask? ==>
                res.Ok?
                && (res.value, memoryFilterRequest.elems)
                   == CheckAndSet(old(memoryFilterRequest.elems), Fingerprint(obj, enc).value)
                && memoryFilterItem.elems == old(memoryFilterItem.elems)
      ensures Fingerprint(obj, enc).Ok? && obj.ItemTask? ==>
                res.Ok?
                && (res.value, memoryFilterItem.elems)
                   == CheckAndSet(old(memoryFilterItem.elems), Fingerprint(obj, enc).value)
                && memoryFilterRequest.elems == old(memoryFilterRequest.elems)
    {
      var fingerprint := Fingerprint(obj, enc);
      if fingerprint.Err? {
        return Err(fingerprint.error), false;
      }
      var memoryFilter := if obj.RequestTask? then memoryFilterRequest else memoryFilterItem;
      var repeat := Judge(fingerprint.value, memoryFilter);
      return Ok(repeat), strict;
    }
  }
}
