# System monitor: log buffer, alert rules and stored rows

A Dafny model of the pure rules inside `monitor.py`. This is a host telemetry
script: four threads sample CPU temperature, GPU temperature, memory usage and
the process list every five seconds. A sample that crosses its threshold (or
any task sample, since the task report always fires) becomes one line in a
rolling five-line activity log and one row in the `system_logs` MySQL table.

Modules:

- `Options`: the optional sensor reading (`None` or a value).
- `Text`: Python's `str.join`, and `str.split` on one character. Joining with a
  one-character separator and splitting on it are proved mutually inverse.
- `LogBuffer`: `write_log`. The log is a `deque(maxlen=5)`, and after every
  append the file is rewritten with the deque's newline-join. The lock makes
  each call one atomic step. The step order is the order in which writers
  acquired the lock.
- `Sensors`: `get_cpu_temperature`. This covers which platform and probe
  result gives a reading, and the Windows conversion from tenths of a kelvin
  to degrees Celsius.
- `Collectors`: one tick of each of `monitor_cpu`, `monitor_gpu`,
  `monitor_memory` and `monitor_tasks`. For each it gives the alert predicate,
  the log message and the row passed to `insert_mysql`.

Inputs the model takes as parameters: the sensor readings, the process names
in enumeration order, the timestamp and IP address as rendered text, and a
function `show` that renders a number the way the f-string does.

Behaviour of monitor.py worth noting:

- No monitor loop calls `send_telegram_message`, so no tick sends a
  notification.
- `write_log` stores the message exactly as the loop built it.
- A row stores the literal `0` for the metrics that did not fire, not NULL.
- The thresholds are fixed at 70 (CPU, GPU) and 80 (memory). The capacity is
  fixed at `MAX_LOG_ENTRIES = 5`.
- `write_log` appends to the deque before it opens the file, and nothing
  undoes the append. If the open or the write fails, the exception ends only
  that `write_log` thread. The deque keeps the new entry while the file is
  stale or truncated, until the next successful write.
- The memory reading has no "unavailable" case.
- No monitor loop catches exceptions. `get_ip()` can raise `socket.gaierror`.
  psutil gives a process name of `None` when access is denied or the process
  is a zombie, and `', '.join(tasks)` then raises `TypeError`. Either failure
  ends that monitor thread for good, before any `write_log` or
  `insert_mysql` call of that tick.

## Model

| member | source | states |
|---|---|---|
| `Text.Join` | monitor.py:72 | The join of no lines is the empty text. Otherwise its length is the lines' total length plus one separator between each pair of neighbours, and it starts with the first line. |
| `Text.JoinSnoc` | monitor.py:72 | Adding a line to a non-empty buffer extends its joined text by one separator and that line. |
| `Text.JoinElementAt` | monitor.py:82 | The i-th joined element appears whole in the joined text, at the offset given by the lengths of the earlier elements and separators. |
| `Text.SplitJoin` | monitor.py:71-72 | For a non-empty list of lines without newlines, splitting their newline-join on newlines returns exactly those lines. |
| `Text.JoinSplit` | monitor.py:71-72 | Any text is the newline-join of its newline-split pieces, so the file text and the line list determine each other. |
| `LogBuffer.Append` | monitor.py:25-29 | An append on a deque with `maxlen` never exceeds the capacity. The result is the last `cap` elements of the old contents followed by the new message. |
| `LogBuffer.AppendEvictsOnlyOldest` | monitor.py:69-70 | A non-full buffer keeps every entry in order and puts the new message last. A full buffer drops exactly its oldest entry and keeps the rest in order. |
| `LogBuffer.AppendAllKeepsNewest` | monitor.py:68-72 | FIFO law: after any sequence of appends, the buffer equals the last `cap` items of the old contents followed by the appended messages, in append order. |
| `LogBuffer.MirrorText` | monitor.py:72 | The mirror text of an empty buffer is empty. Otherwise its length is the lines' total length plus one newline between each pair of lines, so there is no trailing newline. |
| `LogBuffer.WriteLog` | monitor.py:68-72 | After `write_log`, the buffer is within capacity and ends with the new message. The file equals the newline-join of the buffer. |
| `LogBuffer.WriteLogOverwritesFile` | monitor.py:71-72 | The state after a write does not depend on the earlier file contents, because the file is opened in `"w"` mode. |
| `LogBuffer.WriteAll` | monitor.py:68-72 | A run of lock-serialized writes keeps the buffer within capacity. Its buffer equals the deque fold of the messages. |
| `LogBuffer.WriteAllMirrorsNewest` | monitor.py:68-72 | After one or more writes, the buffer holds the newest five lines in append order, and the file mirrors the buffer. |
| `LogBuffer.FromStartup` | monitor.py:29 | Starting from an empty deque and any leftover file, after messages m1..mn (n >= 1) the buffer is the last min(n, 5) messages and the file is their newline-join. |
| `LogBuffer.MirrorRecoversEntries` | monitor.py:71-72 | Splitting the mirrored file on newlines gives back the buffer exactly, when no entry contains a newline. |
| `LogBuffer.SixLinesScenario` | monitor.py:68-72 | Writing L1..L6 leaves [L2..L6] in the buffer and "L2\nL3\nL4\nL5\nL6" in the file. |
| `Sensors.DecikelvinToCelsius` | monitor.py:98 | The Celsius value c satisfies (c + 273.15) * 10 = d, so the raw decikelvin reading is recoverable. |
| `Sensors.DecikelvinToCelsiusMonotonic` | monitor.py:98 | The conversion is strictly increasing in the raw value. |
| `Sensors.CpuTemperature` | monitor.py:91-106 | A reading exists exactly on Windows with at least one thermal zone, or on Linux with a non-empty `coretemp` list. A Windows reading is at least -273.15 and converts back to the first zone's raw value. A Linux reading is the first `coretemp` sensor. |
| `Collectors.TemperatureAlert` | monitor.py:125 | The truthiness test `cpu_temp and cpu_temp > 70` fires exactly when a reading is present and strictly above 70. Line 137 applies the same test to the GPU reading. |
| `Collectors.FormatMessage` | monitor.py:128-163 | A message starts with the timestamp and " \| ", then the metric's label. Then comes the value text followed by the unit, and the message ends with " \| IP: " and the IP. Its length is the sum of its parts. |
| `Collectors.MetricOfFormatMessage` | monitor.py:128-163 | Given the timestamp length, the metric can be read back from any message: the four labels never clash. |
| `Collectors.InsertRow` | monitor.py:75-82 | The stored row carries the timestamp, IP and three metric values unchanged. The task column is the ", "-join of the task list, so an empty list is stored as "" and a single task as its own name. |
| `Collectors.CpuTick` | monitor.py:124-130 | A CPU tick dispatches exactly when the reading is present and above 70. Its row has that temperature, GPU and memory 0, and an empty task text. Its message is the CPU-labelled line. |
| `Collectors.GpuTick` | monitor.py:136-142 | A GPU tick dispatches exactly when the reading is present and above 70. Its row has that temperature, CPU and memory 0, and an empty task text. |
| `Collectors.MemoryTick` | monitor.py:148-154 | A memory tick dispatches exactly when usage is strictly above 80. Its row has that usage, both temperatures 0, and an empty task text. |
| `Collectors.TaskNames` | monitor.py:160 | The task list is a prefix of the enumerated names with min(n, 5) entries. |
| `Collectors.TasksTick` | monitor.py:158-166 | When every process name is a string and `get_ip` returns, the task report is produced on every tick. Its row has all three metrics 0 and the ", "-join of the first five names. The message shows that same text. |
| `Collectors.TaskRowListsEachName` | monitor.py:160-165 | Each of the first five process names appears whole in the task column, at its place in enumeration order. |
| `Collectors.WindowsCpuAlertBoundary` | monitor.py:96-125 | On Windows, the CPU alert fires exactly when the first zone reads at least 3432 tenths of a kelvin. |
| `Collectors.CpuThresholdScenario` | monitor.py:125-130 | A reading of exactly 70.0 does not fire. A reading of 70.1 fires and stores 70.1, with GPU and memory 0. |
| `Collectors.MemoryThresholdScenario` | monitor.py:149-154 | Usage of exactly 80.0 does not fire. Usage of 80.1 fires and stores 80.1, with both temperatures 0. |
| `Collectors.GpuDownMemoryHighScenario` | monitor.py:136-154 | With no GPU reading and memory at 85, the GPU tick is silent and the memory tick dispatches a row with 85. |

## Left out

- `setup_database` and the connect/execute/commit calls in `insert_mysql`: these are database I/O. The model stops at the row that would be inserted.
- `send_telegram_message` and the `Bot` object: this is a network client, and no monitor loop calls it.
- The WMI, psutil, pynvml and `pythoncom` calls, `get_gpu_temperature` and `get_ip`: these are OS, driver and socket access. Their results are model inputs.
- Threads, daemon loops, `time.sleep`, `start_monitoring` and `main`: these are concurrency and lifecycle. Each `write_log` call is one atomic step, in lock-acquisition order. Because every message runs in its own thread, not even one collector's messages are guaranteed to reach the log in tick order. The model therefore takes the lock order as an arbitrary message sequence.
- The actual file write, and any failure of it. `LogState.file` is the string passed to `write()`, and every model step is a write that succeeds. A failed open or write leaves the deque updated and the file stale (open failed) or empty (open truncated it, then the write failed). Until the next successful write, `Mirrored` does not hold of the real file.
- Newline translation: the file is opened in text mode, so on Windows each "\n" of `MirrorText` reaches the disk as "\r\n". Windows is the only platform where the unconditional `import wmi` and `import pythoncom` succeed. The model states the text before translation.
- `datetime.now()` and the float-to-text rendering in messages: these are opaque text (`ts`, `show`). The numeric values are exact reals, so floating-point rounding in `d / 10 - 273.15` is not modelled.
- Failing ticks: the model assumes every process name is a string and `get_ip` returns. Under those assumptions the task report is produced on every tick. A `None` name or a raising `get_ip` ends the monitor thread, and the model does not cover that.
- `config.py`: it only duplicates the constants of monitor.py and is never imported.
