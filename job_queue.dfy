/** The two BullMQ queues, reduced to what the use cases and workers do
    with them: append a named job with its payload, in order. */
module JobQueue {
  /** The payloads the two queues carry. */
  datatype Payload =
    | ScanFolder(folderId: string, folderUrl: string)
    | ProcessFile(fileId: string)

  datatype Job = Job(name: string, data: Payload)

  /** Queue names, as registered by the workers. */
  const FOLDER_QUEUE: string := "folder-queue"
  const FILE_QUEUE: string := "file-queue"

  /** Job names. */
  const SCAN_FOLDER: string := "scan-folder"
  const PROCESS_FILE: string := "process-file"

  /** A queue: the jobs added to it, oldest first. */
  class Queue {
    const name: string
    var jobs: seq<Job>

    constructor(name: string)
      ensures this.name == name && jobs == []
    {
      this.name := name;
      jobs := [];
    }

    /** `add(name, data)`: the job goes to the back of the queue. */
    method Add(jobName: string, data: Payload)
      modifies this
      ensures jobs == old(jobs) + [Job(jobName, data)]
    {
      jobs := jobs + [Job(jobName, data)];
    }
  }
}
