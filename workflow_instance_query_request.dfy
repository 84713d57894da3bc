/**
 * WorkflowInstanceQueryRequest: the API's query object for workflow
 * instances, and its conversion into a WorkflowInstance entity that copies the
 * workflow name and the host, each only when present.
 */
module WorkflowInstanceQuery {
  import opened JavaPrimitives

  /** The entity fields the conversion can set. */
  datatype InstanceField = Name | Host

  /**
   * The WorkflowInstance entity, reduced to the two fields the conversion
   * touches; `written` records which setters have run since construction.
   */
  class WorkflowInstance {
    var name: Option<string>
    var host: Option<string>
    ghost var written: set<InstanceField>

    /** A fresh entity: name and host are null and no setter has run. */
    constructor ()
      ensures name == None && host == None && written == {}
    {
      name, host := None, None;
      written := {};
    }

    method SetName(name: Option<string>)
      modifies this
      ensures this.name == name && host == old(host)
      ensures written == old(written) + {Name}
    {
      this.name := name;
      written := written + {Name};
    }

    method SetHost(host: Option<string>)
      modifies this
      ensures this.host == host && name == old(name)
      ensures written == old(written) + {Host}
    {
      this.host := host;
      written := written + {Host};
    }
  }

  class WorkflowInstanceQueryRequest {
    var projectName: Option<string>
    var workflowName: Option<string>
    var host: Option<string>
    var startTime: Option<string>
    var endTime: Option<string>
    var state: Option<Int>

    /** A request whose fields hold the given values, as the API binds them. */
    constructor (projectName: Option<string>, workflowName: Option<string>, host: Option<string>,
                 startTime: Option<string>, endTime: Option<string>, state: Option<Int>)
      ensures this.projectName == projectName && this.workflowName == workflowName && this.host == host
      ensures this.startTime == startTime && this.endTime == endTime && this.state == state
    {
      this.projectName, this.workflowName, this.host := projectName, workflowName, host;
      this.startTime, this.endTime, this.state := startTime, endTime, state;
    }

    /**
     * convert2WorkflowInstance: a new entity whose name is the workflow name
     * and whose host is the host, each set only when the request's value is
     * non-null; the request itself is left as it was (the method modifies nothing).
     */
    method Convert2WorkflowInstance() returns (w: WorkflowInstance)
      ensures fresh(w)
      ensures Name in w.written <==> workflowName.Some?
      ensures Host in w.written <==> host.Some?
      ensures workflowName.Some? ==> w.name == workflowName
      ensures workflowName.None? ==> w.name == None
      ensures host.Some? ==> w.host == host
      ensures host.None? ==> w.host == None
    {
      w := new WorkflowInstance();
      if workflowName.Some? {
        w.SetName(workflowName);
      }
      if host.Some? {
        w.SetHost(host);
      }
    }
  }

  /**
   * Two requests that agree on workflowName and host convert to entities with
   * the same name and host, whatever their projectName, times and state.
   */
  method ConversionIgnoresOtherFields(a: WorkflowInstanceQueryRequest, b: WorkflowInstanceQueryRequest)
      returns (wa: WorkflowInstance, wb: WorkflowInstance)
    requires a.workflowName == b.workflowName && a.host == b.host
    ensures wa.name == wb.name && wa.host == wb.host
    ensures wa != wb
  {
    wa := a.Convert2WorkflowInstance();
    wb := b.Convert2WorkflowInstance();
  }
}
