/** The temporary file an edit works on, and the `file.Interface` seam the
    service sees it through. */
module File {
  import opened Wrappers

  /** A request or response payload. A Go `[]byte` is modelled like a Go
      `string`: one character per byte. */
  type Bytes = string

  /** A temporary file on disk: its full path and the size of the payload it
      was seeded with. */
  datatype File = File(name: string, size: nat)

  /** The filesystem operations behind a temporary file. `createTemp(dir, payload)`
      stands for creating a uniquely named file in `dir`, writing `payload`
      and closing it; it yields the new file's path. `readFile` and `removeFile`
      answer for the file as it is once the editor command has exited. */
  datatype Fs = Fs(
    createTemp: (string, Bytes) -> Result<string, Error>,
    readFile: string -> Result<Bytes, Error>,
    removeFile: string -> Outcome<Error>)

  /** `NewFile`: a temporary file in `dir` holding `payload`, or the error
      that stopped its creation. */
  function NewFile(fs: Fs, dir: string, payload: Bytes): (r: Result<File, Error>)
    ensures r.Success? <==> fs.createTemp(dir, payload).Success?
    ensures r.Success? ==> r.value.name == fs.createTemp(dir, payload).value
    ensures r.Success? ==> r.value.size == |payload|
    ensures r.Failure? ==> r.error == fs.createTemp(dir, payload).error
  {
    match fs.createTemp(dir, payload)
    case Failure(err) => Failure(err)
    case Success(name) => Success(File(name, |payload|))
  }

  /** `file.Interface`: what the service can ask of a file, namely its name,
      the result of reading it and the result of removing it. */
  datatype Interface = Interface(name: string, read: Result<Bytes, Error>, remove: Outcome<Error>)

  /** A real temporary file behind the `file.Interface` seam: reads and
      removals go to the filesystem, by path. */
  function AsInterface(f: File, fs: Fs): (i: Interface)
    ensures i.name == f.name
    ensures i.read == fs.readFile(f.name) && i.remove == fs.removeFile(f.name)
  {
    Interface(f.name, fs.readFile(f.name), fs.removeFile(f.name))
  }

  /** `FakeFile`: a stand-in whose reads yield a fixed payload and whose
      removal always succeeds. */
  function NewFakeFile(name: string, payload: Bytes): (i: Interface)
    ensures i.name == name && i.read == Success(payload) && i.remove == Pass
  {
    Interface(name, Success(payload), Pass)
  }
}
