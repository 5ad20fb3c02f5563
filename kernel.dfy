/**
 * The kernel side of the sysfs GPIO interface, as abstract state: which lines
 * are exported, every write made to a sysfs file, and the open descriptors.
 */
module SysfsKernel {
  import opened SysfsPaths

  /** One write of `data` to the file at `path`. */
  datatype FileWrite = FileWrite(path: string, data: string)

  /** Writing the decimal line number to the export control file. */
  function ExportWrite(n: int): FileWrite { FileWrite(ExportPath, Decimal(n)) }

  /** Writing the decimal line number to the unexport control file. */
  function UnexportWrite(n: int): FileWrite { FileWrite(UnexportPath, Decimal(n)) }

  class Kernel {
    /** Lines whose gpioN directory exists. */
    var exported: set<int>
    /** Every write made to a sysfs file, oldest first. */
    var log: seq<FileWrite>
    /** Open descriptors and the path each was opened on. */
    var openFiles: map<int, string>

    constructor (exported: set<int>, openFiles: map<int, string>)
      ensures this.exported == exported && this.openFiles == openFiles && log == []
    {
      this.exported := exported;
      this.openFiles := openFiles;
      log := [];
    }

    /** Writes n to the export file; the line's directory appears. */
    method Export(n: int)
      modifies this`exported, this`log
      ensures exported == old(exported) + {n}
      ensures log == old(log) + [ExportWrite(n)]
    {
      log := log + [ExportWrite(n)];
      exported := exported + {n};
    }

    /** Writes n to the unexport file; the line's directory disappears. */
    method Unexport(n: int)
      modifies this`exported, this`log
      ensures exported == old(exported) - {n}
      ensures log == old(log) + [UnexportWrite(n)]
    {
      log := log + [UnexportWrite(n)];
      exported := exported - {n};
    }

    /** Opens a file and writes `data` to it. */
    method Write(path: string, data: string)
      modifies this`log
      ensures log == old(log) + [FileWrite(path, data)]
    {
      log := log + [FileWrite(path, data)];
    }

    /** Writes `data` through an open descriptor. */
    method WriteFd(fd: int, data: string)
      requires fd in openFiles
      modifies this`log
      ensures log == old(log) + [FileWrite(openFiles[fd], data)]
    {
      log := log + [FileWrite(openFiles[fd], data)];
    }

    /** Opens `path` on the lowest descriptor not currently open. */
    method Open(path: string) returns (fd: int)
      modifies this`openFiles
      ensures fd >= 0 && fd !in old(openFiles)
      ensures openFiles == old(openFiles)[fd := path]
    {
      fd := LowestFreeDescriptor(openFiles.Keys);
      openFiles := openFiles[fd := path];
    }
  }

  /** The POSIX rule for a new descriptor: the lowest non-negative number not in use. */
  method LowestFreeDescriptor(inUse: set<int>) returns (fd: int)
    ensures fd >= 0 && fd !in inUse
    ensures forall i :: 0 <= i < fd ==> i in inUse
  {
    fd := 0;
    while fd in inUse
      invariant fd >= 0
      invariant forall i :: 0 <= i < fd ==> i in inUse
      decreases |set i | i in inUse && i >= fd|
    {
      var above := set i | i in inUse && i >= fd;
      var next := set i | i in inUse && i >= fd + 1;
      assert above == next + {fd} && fd !in next;
      assert |above| == |next| + 1;
      fd := fd + 1;
    }
  }
}
